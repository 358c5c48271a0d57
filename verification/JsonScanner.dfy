/** The brace scanner that cuts the first JSON object out of free text
    (app/gateways/llm.py), and the JSON texts of RFC 8259 it must cut out whole. */
module JsonScanner {
  import opened Wrappers

  // ---------------------------------------------------------------- scanning

  /** What the scanner remembers between two characters. */
  datatype Scan = Scan(depth: int, inString: bool, escaped: bool)

  function Outside(depth: int): Scan { Scan(depth, false, false) }

  function Step(s: Scan, c: char): Scan {
    if s.inString then
      if s.escaped then s.(escaped := false)
      else if c == '\\' then s.(escaped := true)
      else if c == '"' then s.(inString := false)
      else s
    else if c == '"' then s.(inString := true)
    else if c == '{' then s.(depth := s.depth + 1)
    else if c == '}' then s.(depth := s.depth - 1)
    else s
  }

  function Read(s: Scan, text: string): Scan
    decreases |text|
  {
    if text == [] then s else Read(Step(s, text[0]), text[1..])
  }

  /** The state after the first `n` characters. */
  function ReadTo(s: Scan, text: string, n: nat): Scan
    requires n <= |text|
  {
    Read(s, text[..n])
  }

  /** Number of braces left open outside string literals. */
  function Depth(text: string): int { Read(Outside(0), text).depth }

  lemma {:induction false} ReadConcat(s: Scan, a: string, b: string)
    ensures Read(s, a + b) == Read(Read(s, a), b)
    decreases |a|
  {
    if a == [] {
      assert a + b == b;
    } else {
      assert (a + b)[1..] == a[1..] + b;
      ReadConcat(Step(s, a[0]), a[1..], b);
    }
  }

  lemma ReadNext(s: Scan, text: string, n: nat)
    requires n < |text|
    ensures ReadTo(s, text, n + 1) == Step(ReadTo(s, text, n), text[n])
  {
    assert text[..n + 1] == text[..n] + [text[n]];
    ReadConcat(s, text[..n], [text[n]]);
  }

  /** Reading into a concatenation. */
  lemma ReadToConcat(s: Scan, a: string, b: string, n: nat)
    requires n <= |a + b|
    ensures ReadTo(s, a + b, n) == if n <= |a| then ReadTo(s, a, n) else ReadTo(Read(s, a), b, n - |a|)
  {
    if n <= |a| {
      assert (a + b)[..n] == a[..n];
    } else {
      assert (a + b)[..n] == a + b[..n - |a|];
      ReadConcat(s, a, b[..n - |a|]);
    }
  }

  /** `t` starts with a brace, closes it at its last character and no earlier. */
  ghost predicate ClosesAtEnd(t: string) {
    && t != [] && t[0] == '{' && Depth(t) == 0
    && forall n :: 0 < n < |t| ==> ReadTo(Outside(0), t, n).depth > 0
  }

  /** Position of the first opening brace, or the length of the text. */
  function FirstBrace(text: string): (start: nat)
    ensures start <= |text| && '{' !in text[..start]
    ensures start < |text| ==> text[start] == '{'
    decreases |text|
  {
    if text == [] || text[0] == '{' then 0 else 1 + FirstBrace(text[1..])
  }

  /** The specification of the search: the answer is the shortest closed slice
      from the first opening brace, and nothing when no slice from there closes. */
  ghost predicate IsFirstObject(text: string, r: Option<string>) {
    var rest := text[FirstBrace(text)..];
    match r
    case Some(t) => t <= rest && ClosesAtEnd(t)
    case None => forall end :: 0 < end <= |rest| ==> !ClosesAtEnd(rest[..end])
  }

  method ExtractFirstJsonObjectText(text: string) returns (r: Option<string>)
    ensures IsFirstObject(text, r)
  {
    var start := FirstBrace(text);
    if start == |text| {
      return None;
    }
    ghost var rest := text[start..];
    var depth, inString, escaped := 0, false, false;
    for index := start to |text|
      invariant ReadTo(Outside(0), rest, index - start) == Scan(depth, inString, escaped)
      invariant forall n :: 0 < n <= index - start ==> ReadTo(Outside(0), rest, n).depth > 0
    {
      ReadNext(Outside(0), rest, index - start);
      var closes;
      depth, inString, escaped, closes := ReadChar(depth, inString, escaped, text[index]);
      if closes && depth == 0 {
        ClosedHere(rest, index + 1 - start);
        r := Some(text[start..index + 1]);
        assert r.value == rest[..index + 1 - start];
        return;
      }
    }
    assert rest[..|rest|] == rest;
    forall end | 0 < end <= |rest| ensures !ClosesAtEnd(rest[..end]) {
      assert ReadTo(Outside(0), rest, end).depth > 0;
    }
    r := None;
  }

  /** The loop's body for one character; `closes` tells of a closing brace that counts. */
  method ReadChar(depth: int, inString: bool, escaped: bool, c: char)
    returns (depth': int, inString': bool, escaped': bool, closes: bool)
    ensures Scan(depth', inString', escaped') == Step(Scan(depth, inString, escaped), c)
    ensures closes <==> depth' < depth
  {
    depth', inString', escaped', closes := depth, inString, escaped, false;
    if inString {
      if escaped {
        escaped' := false;
      } else if c == '\\' {
        escaped' := true;
      } else if c == '"' {
        inString' := false;
      }
      return;
    }
    if c == '"' {
      inString' := true;
      return;
    }
    if c == '{' {
      depth' := depth + 1;
    } else if c == '}' {
      depth', closes := depth - 1, true;
    }
  }

  lemma ClosedHere(rest: string, n: nat)
    requires 0 < n <= |rest| && rest[0] == '{' && ReadTo(Outside(0), rest, n).depth == 0
    requires forall k :: 0 < k < n ==> ReadTo(Outside(0), rest, k).depth > 0
    ensures ClosesAtEnd(rest[..n])
  {
    forall k | 0 < k < n ensures ReadTo(Outside(0), rest[..n], k).depth > 0 {
      assert rest == rest[..n] + rest[n..];
      ReadToConcat(Outside(0), rest[..n], rest[n..], k);
    }
  }

  /** The specification has at most one answer. */
  lemma FirstObjectUnique(text: string, t: string, r: Option<string>)
    requires IsFirstObject(text, Some(t)) && IsFirstObject(text, r)
    ensures r == Some(t)
  {
    var rest := text[FirstBrace(text)..];
    assert rest[..|t|] == t;
    match r
    case None =>
    case Some(u) =>
      if |t| <= |u| {
        ClosedPrefix(t, u);
      } else {
        ClosedPrefix(u, t);
      }
  }

  lemma ClosedPrefix(t: string, u: string)
    requires ClosesAtEnd(t) && ClosesAtEnd(u) && t <= u
    ensures t == u
  {
    assert u[..|t|] == t;
    assert ReadTo(Outside(0), u, |t|).depth == 0;
  }

  lemma FoundCloses(text: string, t: string)
    requires IsFirstObject(text, Some(t))
    ensures var rest := text[FirstBrace(text)..];
      0 < |t| <= |rest| && ClosesAtEnd(rest[..|t|])
  {
    assert text[FirstBrace(text)..][..|t|] == t;
  }

  // ------------------------------------------------- JSON texts (RFC 8259)

  /** One element of a string literal: section 7 of RFC 8259. */
  datatype StringPart = Plain(c: char) | Escape(c: char) | Unicode(h0: char, h1: char, h2: char, h3: char)

  /** A JSON text with its white space: sections 2 to 7 of RFC 8259. */
  datatype Json =
    | Literal(word: string)
    | Number(digits: string)
    | String(parts: seq<StringPart>)
    | Array(space: string, elements: Elements)
    | Object(space: string, members: Members)

  datatype Elements = NoElement | Element(before: string, value: Json, after: string, rest: Elements)

  datatype Members =
    | NoMember
    | Member(before: string, name: seq<StringPart>, middle: string,
             gap: string, value: Json, after: string, rest: Members)

  predicate IsSpace(s: string) { forall c :: c in s ==> c in " \t\n\r" }

  predicate IsHex(c: char) { '0' <= c <= '9' || 'a' <= c <= 'f' || 'A' <= c <= 'F' }

  predicate ValidPart(p: StringPart) {
    match p
    case Plain(c) => ' ' <= c && c != '"' && c != '\\'
    case Escape(c) => c in "\"\\/bfnrt"
    case Unicode(a, b, c, d) => IsHex(a) && IsHex(b) && IsHex(c) && IsHex(d)
  }

  predicate ValidString(parts: seq<StringPart>) { forall p :: p in parts ==> ValidPart(p) }

  predicate Valid(v: Json) {
    match v
    case Literal(w) => w == "true" || w == "false" || w == "null"
    case Number(d) => forall c :: c in d ==> '0' <= c <= '9' || c in "+-.eE"
    case String(parts) => ValidString(parts)
    case Array(space, elements) => IsSpace(space) && ValidElements(elements)
    case Object(space, members) => IsSpace(space) && ValidMembers(members)
  }

  predicate ValidElements(e: Elements) {
    match e
    case NoElement => true
    case Element(before, value, after, rest) =>
      IsSpace(before) && Valid(value) && IsSpace(after) && ValidElements(rest)
  }

  predicate ValidMembers(m: Members) {
    match m
    case NoMember => true
    case Member(before, name, middle, gap, value, after, rest) =>
      IsSpace(before) && ValidString(name) && IsSpace(middle) && IsSpace(gap)
      && Valid(value) && IsSpace(after) && ValidMembers(rest)
  }

  function PrintPart(p: StringPart): string {
    match p
    case Plain(c) => [c]
    case Escape(c) => ['\\', c]
    case Unicode(a, b, c, d) => ['\\', 'u', a, b, c, d]
  }

  function PrintParts(parts: seq<StringPart>): string {
    if parts == [] then "" else PrintPart(parts[0]) + PrintParts(parts[1..])
  }

  function PrintString(parts: seq<StringPart>): string { "\"" + PrintParts(parts) + "\"" }

  function Print(v: Json): string {
    match v
    case Literal(w) => w
    case Number(d) => d
    case String(parts) => PrintString(parts)
    case Array(space, elements) => "[" + space + PrintElements(elements) + "]"
    case Object(space, members) => "{" + (space + PrintMembers(members)) + "}"
  }

  function PrintElements(e: Elements): string {
    match e
    case NoElement => ""
    case Element(before, value, after, rest) =>
      before + Print(value) + after + (if rest.NoElement? then "" else ",") + PrintElements(rest)
  }

  function PrintMembers(m: Members): string {
    match m
    case NoMember => ""
    case Member(before, name, middle, gap, value, after, rest) =>
      before + PrintString(name) + middle + ":" + gap + Print(value) + after
      + (if rest.NoMember? then "" else ",") + PrintMembers(rest)
  }

  // ---------------------------------------------- printed values are balanced

  /** Reading `t` in state `s` comes back to `s` and never goes below its depth. */
  ghost predicate Balanced(s: Scan, t: string) {
    && Read(s, t) == s
    && forall n :: 0 <= n <= |t| ==> ReadTo(s, t, n).depth >= s.depth
  }

  lemma BalancedConcat(s: Scan, a: string, b: string)
    requires Balanced(s, a) && Balanced(s, b)
    ensures Balanced(s, a + b)
  {
    ReadConcat(s, a, b);
    forall n | 0 <= n <= |a + b| ensures ReadTo(s, a + b, n).depth >= s.depth {
      ReadToConcat(s, a, b, n);
    }
  }

  lemma QuietChar(s: Scan, c: char)
    requires Step(s, c) == s
    ensures Balanced(s, [c])
  {
    forall n | 0 <= n <= 1 ensures ReadTo(s, [c], n) == s {
      if n == 0 {
        assert [c][..0] == [];
      } else {
        assert [c][..1] == [c] && [c][1..] == [];
        assert Read(s, [c]) == Read(Step(s, c), []);
      }
    }
  }

  lemma {:induction false} QuietBalanced(s: Scan, t: string)
    requires forall c :: c in t ==> Step(s, c) == s
    ensures Balanced(s, t)
    decreases |t|
  {
    if t != [] {
      QuietBalanced(s, t[1..]);
      assert t == [t[0]] + t[1..];
      QuietChar(s, t[0]);
      BalancedConcat(s, [t[0]], t[1..]);
    }
  }

  /** A bracketing pair around balanced text, read from `s`. */
  lemma BalancedWrap(s: Scan, open: char, body: string, close: char)
    requires Step(s, open).depth >= s.depth && Balanced(Step(s, open), body)
    requires Step(Step(s, open), close) == s
    ensures Balanced(s, [open] + body + [close])
    ensures forall n :: 0 < n <= |body| + 1 ==>
      ReadTo(s, [open] + body + [close], n).depth >= Step(s, open).depth
  {
    var inner := Step(s, open);
    assert Read(s, [open]) == inner;
    ReadConcat(s, [open], body);
    ReadConcat(s, [open] + body, [close]);
    forall n | 0 < n <= |body| + 1 ensures ReadTo(s, [open] + body + [close], n).depth >= inner.depth {
      ReadToConcat(s, [open] + body, [close], n);
      ReadToConcat(s, [open], body, n);
      if n == 1 {
        assert [open][..1] == [open] && body[..0] == [];
        assert ReadTo(inner, body, 0) == inner;
      }
    }
    var t := [open] + body + [close];
    assert t[..|t|] == t && t[..0] == [];
  }

  lemma PartBalanced(d: int, p: StringPart)
    requires ValidPart(p)
    ensures Balanced(Scan(d, true, false), PrintPart(p))
  {
    var s := Scan(d, true, false);
    match p
    case Plain(c) => QuietBalanced(s, [c]);
    case Escape(c) => EscapeBalanced(d, c);
    case Unicode(a, b, c, e) =>
      EscapeBalanced(d, 'u');
      QuietBalanced(s, [a, b, c, e]);
      BalancedConcat(s, ['\\', 'u'], [a, b, c, e]);
      assert PrintPart(p) == ['\\', 'u'] + [a, b, c, e];
  }

  lemma EscapeBalanced(d: int, c: char)
    ensures Balanced(Scan(d, true, false), ['\\', c])
  {
    BalancedWrap(Scan(d, true, false), '\\', "", c);
    assert ['\\', c] == ['\\'] + "" + [c];
  }

  lemma {:induction false} PartsBalanced(d: int, parts: seq<StringPart>)
    requires ValidString(parts)
    ensures Balanced(Scan(d, true, false), PrintParts(parts))
    decreases |parts|
  {
    if parts != [] {
      PartBalanced(d, parts[0]);
      PartsBalanced(d, parts[1..]);
      BalancedConcat(Scan(d, true, false), PrintPart(parts[0]), PrintParts(parts[1..]));
    }
  }

  lemma StringBalanced(d: int, parts: seq<StringPart>)
    requires ValidString(parts)
    ensures Balanced(Outside(d), PrintString(parts))
  {
    PartsBalanced(d, parts);
    BalancedWrap(Outside(d), '"', PrintParts(parts), '"');
  }

  /** Every JSON text leaves the depth where it found it: braces and quotes inside
      string literals, escaped or not, are never counted. */
  lemma {:induction false} JsonBalanced(d: int, v: Json)
    requires Valid(v)
    ensures Balanced(Outside(d), Print(v))
    decreases v, 1
  {
    var s := Outside(d);
    match v
    case Literal(w) => QuietBalanced(s, w);
    case Number(digits) => QuietBalanced(s, digits);
    case String(parts) => StringBalanced(d, parts);
    case Array(space, elements) =>
      QuietBalanced(s, "[" + space);
      ElementsBalanced(d, elements);
      BalancedConcat(s, "[" + space, PrintElements(elements));
      QuietBalanced(s, "]");
      BalancedConcat(s, "[" + space + PrintElements(elements), "]");
    case Object(space, members) =>
      ObjectBalanced(d, space, members, Print(v));
  }

  lemma {:induction false} ObjectBalanced(d: int, space: string, members: Members, t: string)
    requires IsSpace(space) && ValidMembers(members) && t == Print(Object(space, members))
    ensures Balanced(Outside(d), t)
    ensures forall n :: 0 < n < |t| ==> ReadTo(Outside(d), t, n).depth > d
    decreases members, 2
  {
    QuietBalanced(Outside(d + 1), space);
    MembersBalanced(d + 1, members);
    BalancedConcat(Outside(d + 1), space, PrintMembers(members));
    BalancedWrap(Outside(d), '{', space + PrintMembers(members), '}');
    assert t == ['{'] + (space + PrintMembers(members)) + ['}'];
  }

  lemma {:induction false} ElementsBalanced(d: int, e: Elements)
    requires ValidElements(e)
    ensures Balanced(Outside(d), PrintElements(e))
    decreases e, 1
  {
    var s := Outside(d);
    match e
    case NoElement =>
    case Element(before, value, after, rest) =>
      var comma := if rest.NoElement? then "" else ",";
      QuietBalanced(s, before);
      JsonBalanced(d, value);
      BalancedConcat(s, before, Print(value));
      QuietBalanced(s, after);
      BalancedConcat(s, before + Print(value), after);
      QuietBalanced(s, comma);
      BalancedConcat(s, before + Print(value) + after, comma);
      ElementsBalanced(d, rest);
      BalancedConcat(s, before + Print(value) + after + comma, PrintElements(rest));
  }

  lemma {:induction false} MembersBalanced(d: int, m: Members)
    requires ValidMembers(m)
    ensures Balanced(Outside(d), PrintMembers(m))
    decreases m, 1
  {
    var s := Outside(d);
    match m
    case NoMember =>
    case Member(before, name, middle, gap, value, after, rest) =>
      var comma := if rest.NoMember? then "" else ",";
      var head := before + PrintString(name) + middle + ":" + gap;
      LabelBalanced(d, before, name, middle, gap);
      JsonBalanced(d, value);
      BalancedConcat(s, head, Print(value));
      QuietBalanced(s, after);
      BalancedConcat(s, head + Print(value), after);
      QuietBalanced(s, comma);
      BalancedConcat(s, head + Print(value) + after, comma);
      MembersBalanced(d, rest);
      BalancedConcat(s, head + Print(value) + after + comma, PrintMembers(rest));
  }

  lemma LabelBalanced(d: int, before: string, name: seq<StringPart>, middle: string, gap: string)
    requires IsSpace(before) && ValidString(name) && IsSpace(middle) && IsSpace(gap)
    ensures Balanced(Outside(d), before + PrintString(name) + middle + ":" + gap)
  {
    var s := Outside(d);
    QuietBalanced(s, before);
    StringBalanced(d, name);
    BalancedConcat(s, before, PrintString(name));
    QuietBalanced(s, middle);
    BalancedConcat(s, before + PrintString(name), middle);
    QuietBalanced(s, ":");
    BalancedConcat(s, before + PrintString(name) + middle, ":");
    QuietBalanced(s, gap);
    BalancedConcat(s, before + PrintString(name) + middle + ":", gap);
  }

  /** Whatever surrounds it, the search cuts out exactly the printed object, as
      long as the text before it has no opening brace. */
  lemma PrintedObjectExtracted(prefix: string, v: Json, suffix: string, r: Option<string>)
    requires Valid(v) && v.Object? && '{' !in prefix
    requires IsFirstObject(prefix + Print(v) + suffix, r)
    ensures r == Some(Print(v))
  {
    PrintedCloses(v.space, v.members, Print(v));
    ClosedIsCutOut(prefix, Print(v), suffix, r);
  }

  lemma PrintedCloses(space: string, members: Members, t: string)
    requires IsSpace(space) && ValidMembers(members) && t == Print(Object(space, members))
    ensures ClosesAtEnd(t)
  {
    ObjectBalanced(0, space, members, t);
    assert t[0] == '{';
  }

  lemma ClosedIsCutOut(prefix: string, t: string, suffix: string, r: Option<string>)
    requires ClosesAtEnd(t) && '{' !in prefix && IsFirstObject(prefix + t + suffix, r)
    ensures r == Some(t)
  {
    var text := prefix + t + suffix;
    FirstBraceAfter(prefix, t + suffix);
    assert text == prefix + (t + suffix);
    assert text[|prefix|..] == t + suffix;
    FirstObjectUnique(text, t, r);
  }

  /** For any text and any object: its printed text is what is found exactly when it
      starts at the first brace of the text. */
  lemma ObjectFoundIffFirst(text: string, v: Json, r: Option<string>)
    requires Valid(v) && v.Object? && IsFirstObject(text, r)
    ensures r == Some(Print(v)) <==> Print(v) <= text[FirstBrace(text)..]
  {
    PrintedCloses(v.space, v.members, Print(v));
    if Print(v) <= text[FirstBrace(text)..] {
      FirstObjectUnique(text, Print(v), r);
    }
  }

  lemma {:induction false} FirstBraceAfter(prefix: string, rest: string)
    requires '{' !in prefix && rest != [] && rest[0] == '{'
    ensures FirstBrace(prefix + rest) == |prefix|
    decreases |prefix|
  {
    if prefix == [] {
      assert prefix + rest == rest;
    } else {
      assert (prefix + rest)[1..] == prefix[1..] + rest;
      FirstBraceAfter(prefix[1..], rest);
    }
  }

  predicate IsQuiet(t: string) { forall c :: c in t ==> c != '"' && c != '{' && c != '}' }

  /** The condition on the text before the object is needed: one stray opening brace
      there, and nothing is found whatever object follows. */
  lemma StrayBraceHidesObject(prefix: string, gap: string, v: Json, suffix: string, r: Option<string>)
    requires '{' !in prefix && IsQuiet(gap) && Valid(v) && IsQuiet(suffix)
    requires IsFirstObject(prefix + ("{" + (gap + Print(v) + suffix)), r)
    ensures r == None
  {
    var body := gap + Print(v) + suffix;
    var rest := "{" + body;
    QuietBalanced(Outside(1), gap);
    JsonBalanced(1, v);
    BalancedConcat(Outside(1), gap, Print(v));
    QuietBalanced(Outside(1), suffix);
    BalancedConcat(Outside(1), gap + Print(v), suffix);
    FirstBraceAfter(prefix, rest);
    assert (prefix + rest)[|prefix|..] == rest;
    forall end | 0 < end <= |rest| ensures !ClosesAtEnd(rest[..end]) {
      assert ReadTo(Outside(0), rest, end) == ReadTo(Outside(1), body, end - 1) by {
        assert Read(Outside(0), "{") == Outside(1);
        ReadToConcat(Outside(0), "{", body, end);
        assert "{"[..1] == "{" && body[..0] == [];
      }
    }
    if r.Some? {
      FoundCloses(prefix + rest, r.value);
    }
  }
}
