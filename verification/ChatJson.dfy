/** Which part of a model's reply is taken for its JSON object: the whole reply, a
    fenced block, or the first object in it (app/gateways/llm.py). */
module ChatJson {
  import opened Text
  import opened Wrappers
  import J = JsonScanner

  const FENCE := "```"

  // ------------------------------------------------------------ fenced blocks

  /** The first place of `sep` from `i` on, or the length of the text. */
  function Next(text: string, sep: string, i: nat): (n: nat)
    requires sep != "" && i <= |text|
    ensures i <= n <= |text| && (n < |text| ==> OccursAt(text, sep, n))
    ensures forall k :: i <= k < n ==> !OccursAt(text, sep, k)
    decreases |text| - i
  {
    if i == |text| || OccursAt(text, sep, i) then i else Next(text, sep, i + 1)
  }

  /** `str.split`: never empty. */
  function Split(text: string, sep: string): (parts: seq<string>)
    requires sep != ""
    ensures parts != []
    decreases |text|
  {
    var n := Next(text, sep, 0);
    if n == |text| then [text] else [text[..n]] + Split(text[n + |sep|..], sep)
  }

  function Joined(parts: seq<string>, sep: string): string
    requires parts != []
    decreases |parts|
  {
    if |parts| == 1 then parts[0] else parts[0] + sep + Joined(parts[1..], sep)
  }

  lemma NoneBefore(text: string, sep: string, n: nat)
    requires sep != "" && n <= |text| && forall k :: 0 <= k < n ==> !OccursAt(text, sep, k)
    ensures !Contains(text[..n], sep)
  {
    forall i | 0 <= i <= n ensures !OccursAt(text[..n], sep, i) {
      if i + |sep| <= n {
        assert text[i..i + |sep|] == text[..n][i..i + |sep|];
        assert !OccursAt(text, sep, i);
      }
    }
  }

  /** Splitting loses nothing, and no part has a separator left. */
  lemma {:induction false} SplitParts(text: string, sep: string)
    requires sep != ""
    ensures Joined(Split(text, sep), sep) == text
    ensures forall part :: part in Split(text, sep) ==> !Contains(part, sep)
    decreases |text|
  {
    var n := Next(text, sep, 0);
    if n == |text| {
      assert !OccursAt(text, sep, |text|);
    } else {
      var rest := text[n + |sep|..];
      SplitParts(rest, sep);
      assert text == text[..n] + sep + rest;
      assert Split(text, sep)[1..] == Split(rest, sep);
      NoneBefore(text, sep, n);
    }
  }

  /** A block without its `json` tag. */
  function Untagged(part: string): string {
    var block := Strip(part);
    if |block| >= 4 && Lower(block[..4]) == "json" then Strip(block[4..]) else block
  }

  /** Every second part, from part `i` on. */
  function Blocks(parts: seq<string>, i: nat): seq<string>
    decreases |parts| - i
  {
    if i >= |parts| then [] else [Untagged(parts[i])] + Blocks(parts, i + 2)
  }

  method JsonFenceCandidates(text: string) returns (candidates: seq<string>)
    ensures candidates == Blocks(Split(text, FENCE), 1)
  {
    candidates := [];
    if !Contains(text, FENCE) {
      UnfencedIsOnePart(text);
      return;
    }
    var parts := Split(text, FENCE);
    candidates := OddBlocks(parts);
  }

  /** The loop over the parts. */
  method OddBlocks(parts: seq<string>) returns (candidates: seq<string>)
    ensures candidates == Blocks(parts, 1)
  {
    candidates := [];
    var index := 1;
    while index < |parts|
      invariant index >= 1 && candidates + Blocks(parts, index) == Blocks(parts, 1)
      decreases |parts| - index
    {
      var block := Untagged(parts[index]);
      assert Blocks(parts, index) == [block] + Blocks(parts, index + 2);
      candidates := candidates + [block];
      index := index + 2;
    }
  }

  lemma UnfencedIsOnePart(text: string)
    requires !Contains(text, FENCE)
    ensures Split(text, FENCE) == [text]
  {
    var n := Next(text, FENCE, 0);
    assert OccursAt(text, FENCE, n) ==> Contains(text, FENCE);
  }

  // --------------------------------------------------------------- candidates

  /** The candidates in the order they are tried. */
  ghost predicate Candidates(text: string, all: seq<string>) {
    var stripped := Strip(text);
    exists embedded: Option<string> :: J.IsFirstObject(stripped, embedded)
      && all == [stripped] + Blocks(Split(stripped, FENCE), 1) + if embedded.Some? then [embedded.value] else []
  }

  predicate FirstTaken(all: seq<string>, accepts: string -> bool, k: nat)
    requires k < |all|
  {
    all[k] != "" && accepts(all[k]) && forall i :: 0 <= i < k ==> all[i] == "" || !accepts(all[i])
  }

  /** The answer for a text: the first candidate that is taken, if any is. */
  ghost predicate Parsed(text: string, accepts: string -> bool, r: Option<string>) {
    exists all :: Candidates(text, all) && Answers(all, accepts, r)
  }

  predicate Answers(all: seq<string>, accepts: string -> bool, r: Option<string>) {
    match r
    case None => forall i :: 0 <= i < |all| ==> all[i] == "" || !accepts(all[i])
    case Some(t) => exists k :: 0 <= k < |all| && all[k] == t && FirstTaken(all, accepts, k)
  }

  /** `accepts` is the JSON parser's answer on an object text. The first non-empty
      candidate that it accepts is taken. */
  method ParseChatCompletionJsonText(text: string, accepts: string -> bool) returns (r: Option<string>)
    ensures Parsed(text, accepts, r)
    ensures r.Some? ==> r.value != "" && accepts(r.value)
  {
    var stripped := Strip(text);
    var fences := JsonFenceCandidates(stripped);
    var embedded := J.ExtractFirstJsonObjectText(stripped);
    var candidates := [stripped] + fences + if embedded.Some? then [embedded.value] else [];
    assert Candidates(text, candidates);
    for i := 0 to |candidates|
      invariant forall k :: 0 <= k < i ==> candidates[k] == "" || !accepts(candidates[k])
    {
      if candidates[i] != "" && accepts(candidates[i]) {
        assert FirstTaken(candidates, accepts, i);
        assert Answers(candidates, accepts, Some(candidates[i]));
        return Some(candidates[i]);
      }
    }
    assert Answers(candidates, accepts, None);
    r := None;
  }

  /** The whole reply comes first. */
  lemma WholeReplyIsParsed(text: string, accepts: string -> bool, r: Option<string>)
    requires Parsed(text, accepts, r) && Strip(text) != "" && accepts(Strip(text))
    ensures r == Some(Strip(text))
  {
    var all :| Candidates(text, all) && Answers(all, accepts, r);
    assert all[0] == Strip(text);
  }

  // ------------------------------------------------------ objects are not lost

  lemma {:induction false} StripLeftTo(pre: string, text: string)
    requires text != "" && !IsSpace(text[0])
    ensures StripLeft(pre + text) == StripLeft(pre) + text
    decreases |pre|
  {
    if pre == "" {
      assert pre + text == text;
    } else {
      assert (pre + text)[1..] == pre[1..] + text;
      StripLeftTo(pre[1..], text);
    }
  }

  lemma {:induction false} StripRightTo(text: string, post: string)
    requires text != "" && !IsSpace(text[|text| - 1])
    ensures StripRight(text + post) == text + StripRight(post)
    decreases |post|
  {
    if post == "" {
      assert text + post == text;
    } else {
      assert (text + post)[..|text + post| - 1] == text + post[..|post| - 1];
      StripRightTo(text, post[..|post| - 1]);
    }
  }

  /** Stripping around an object text leaves the object whole. */
  lemma StripAround(pre: string, printed: string, post: string)
    requires printed != "" && !IsSpace(printed[0]) && !IsSpace(printed[|printed| - 1])
    ensures Strip(pre + printed + post) == StripLeft(pre) + printed + StripRight(post)
  {
    StripRightTo(pre + printed, post);
    assert pre + printed + StripRight(post) == pre + (printed + StripRight(post));
    StripLeftTo(pre, printed + StripRight(post));
    assert StripLeft(pre) + (printed + StripRight(post)) == StripLeft(pre) + printed + StripRight(post);
  }

  lemma ObjectEnds(v: J.Json)
    requires v.Object?
    ensures var t := J.Print(v); t != "" && t[0] == '{' && t[|t| - 1] == '}'
  {
  }

  lemma LastCandidate(text: string, all: seq<string>, printed: string)
    requires Candidates(text, all)
    requires forall r :: J.IsFirstObject(Strip(text), r) ==> r == Some(printed)
    ensures all != [] && all[|all| - 1] == printed
  {
  }

  /** A reply with an object in it, after any text without an opening brace, is never
      given up: the object's own text is the last candidate. */
  lemma EmbeddedObjectIsCandidate(pre: string, v: J.Json, post: string, all: seq<string>)
    requires J.Valid(v) && v.Object? && '{' !in pre
    requires Candidates(pre + J.Print(v) + post, all)
    ensures all != [] && all[|all| - 1] == J.Print(v)
  {
    var printed := J.Print(v);
    ObjectEnds(v);
    StripAround(pre, printed, post);
    var space := StripLeftParts(pre);
    forall r | J.IsFirstObject(Strip(pre + printed + post), r) ensures r == Some(printed) {
      J.PrintedObjectExtracted(StripLeft(pre), v, StripRight(post), r);
    }
    LastCandidate(pre + printed + post, all, printed);
  }

  /** Such a reply is parsed as long as the parser accepts the object's text. */
  lemma EmbeddedObjectIsTaken(pre: string, v: J.Json, post: string, accepts: string -> bool, r: Option<string>)
    requires J.Valid(v) && v.Object? && '{' !in pre && accepts(J.Print(v))
    requires Parsed(pre + J.Print(v) + post, accepts, r)
    ensures r.Some? && accepts(r.value)
  {
    var all :| Candidates(pre + J.Print(v) + post, all) && Answers(all, accepts, r);
    EmbeddedObjectIsCandidate(pre, v, post, all);
    ObjectEnds(v);
  }

  /** It is parsed as that very object when nothing tried before is accepted: neither the
      whole reply nor a fenced block. */
  lemma EmbeddedObjectIsParsed(pre: string, v: J.Json, post: string, accepts: string -> bool, r: Option<string>)
    requires J.Valid(v) && v.Object? && '{' !in pre && accepts(J.Print(v))
    requires Parsed(pre + J.Print(v) + post, accepts, r)
    requires var stripped := Strip(pre + J.Print(v) + post);
      !accepts(stripped) && forall block :: block in Blocks(Split(stripped, FENCE), 1) ==> !accepts(block)
    ensures r == Some(J.Print(v))
  {
    var text := pre + J.Print(v) + post;
    var all :| Candidates(text, all) && Answers(all, accepts, r);
    EmbeddedObjectIsCandidate(pre, v, post, all);
    EmbeddedObjectIsTaken(pre, v, post, accepts, r);
    OnlyTheLast(text, all, accepts);
  }

  lemma OnlyTheLast(text: string, all: seq<string>, accepts: string -> bool)
    requires Candidates(text, all)
    requires !accepts(Strip(text)) && forall block :: block in Blocks(Split(Strip(text), FENCE), 1) ==> !accepts(block)
    ensures forall i :: 0 <= i < |all| - 1 ==> !accepts(all[i])
  {
    var head := [Strip(text)] + Blocks(Split(Strip(text), FENCE), 1);
    forall i | 0 <= i < |all| - 1 ensures !accepts(all[i]) {
      assert i < |head| && all[i] == head[i] && head[i] in head;
    }
  }

  lemma BareBlock(gap: string, printed: string, after: string)
    requires AllSpace(gap) && AllSpace(after) && Trimmed(printed) && printed != "" && printed[0] == '{'
    ensures Untagged(gap + printed + after) == printed
  {
    StripMiddle(gap, printed, after);
    if |printed| >= 4 {
      assert Lower(printed[..4])[0] == LowerChar('{');
    }
  }

  lemma TaggedBlock(gap: string, tag: string, between: string, printed: string, after: string)
    requires AllSpace(gap) && AllSpace(between) && AllSpace(after) && Trimmed(printed) && printed != ""
    requires Lower(tag) == "json"
    ensures Untagged(gap + (tag + between + printed) + after) == printed
  {
    var block := tag + between + printed;
    assert |tag| == |Lower(tag)| == 4;
    assert LowerChar(tag[0]) == Lower(tag)[0] == 'j';
    assert block[0] == tag[0] && block[|block| - 1] == printed[|printed| - 1];
    StripMiddle(gap, block, after);
    assert block[..4] == tag && block[4..] == between + printed + "";
    StripMiddle(between, printed, "");
  }

  /** A fenced block with nothing but an object in it, tagged or not, in white space, is
      read as that object's text. */
  lemma FencedObjectIsUntagged(gap: string, tag: string, between: string, v: J.Json, after: string)
    requires v.Object? && AllSpace(gap) && AllSpace(between) && AllSpace(after)
    requires tag == "" || Lower(tag) == "json"
    ensures Untagged(gap + (tag + between + J.Print(v)) + after) == J.Print(v)
  {
    var printed := J.Print(v);
    ObjectEnds(v);
    if tag == "" {
      assert gap + (tag + between + printed) + after == (gap + between) + printed + after;
      BareBlock(gap + between, printed, after);
    } else {
      TaggedBlock(gap, tag, between, printed, after);
    }
  }

  lemma SplitAtFence(part: string, rest: string)
    requires '`' !in part
    ensures Split(part + FENCE + rest, FENCE) == [part] + Split(rest, FENCE)
  {
    var text := part + FENCE + rest;
    var n := Next(text, FENCE, 0);
    assert text[|part|..|part| + 3] == FENCE;
    assert OccursAt(text, FENCE, |part|);
    assert forall k :: 0 <= k < |part| ==> text[k] == part[k] && text[k] != '`';
    OccursStart(text, FENCE, n);
    assert text[..n] == part && text[n + 3..] == rest;
  }

  lemma Regroup(a: string, b: string, c: string, d: string, e: string)
    ensures a + (b + c + d) + e == a + b + (c + d + e)
  {
  }

  /** The reply without white space around it. */
  lemma FencedStripped(pre: string, block: string, post: string)
    ensures Strip(pre + (FENCE + block + FENCE) + post)
      == StripLeft(pre) + FENCE + (block + FENCE + StripRight(post))
  {
    var fenced := FENCE + block + FENCE;
    assert fenced[0] == '`' && fenced[|fenced| - 1] == '`';
    StripAround(pre, fenced, post);
    Regroup(StripLeft(pre), FENCE, block, FENCE, StripRight(post));
  }

  /** The text before the block, the block, and what follows its closing fence. */
  lemma FencedParts(pre: string, block: string, post: string)
    requires '`' !in pre && '`' !in block
    ensures Split(Strip(pre + (FENCE + block + FENCE) + post), FENCE)
      == [StripLeft(pre)] + ([block] + Split(StripRight(post), FENCE))
  {
    FencedStripped(pre, block, post);
    var space := StripLeftParts(pre);
    SplitAtFence(StripLeft(pre), block + FENCE + StripRight(post));
    SplitAtFence(block, StripRight(post));
  }

  /** A reply with an object in its first fenced block, tagged or not, whatever stands
      around the block: it is read as that object unless the whole reply is accepted. */
  lemma FencedObjectIsParsed(
    pre: string, gap: string, tag: string, between: string, v: J.Json, after: string, post: string,
    accepts: string -> bool, r: Option<string>)
    requires v.Object? && AllSpace(gap) && AllSpace(between) && AllSpace(after)
    requires tag == "" || Lower(tag) == "json"
    requires '`' !in pre && '`' !in J.Print(v) && accepts(J.Print(v))
    requires var reply := pre + (FENCE + (gap + (tag + between + J.Print(v)) + after) + FENCE) + post;
      !accepts(Strip(reply)) && Parsed(reply, accepts, r)
    ensures r == Some(J.Print(v))
  {
    var printed := J.Print(v);
    BlockHasNoFence(gap, tag, between, printed, after);
    FencedObjectIsUntagged(gap, tag, between, v, after);
    ObjectEnds(v);
    BlockIsTaken(pre, gap + (tag + between + printed) + after, post, printed, accepts, r);
  }

  lemma BlockHasNoFence(gap: string, tag: string, between: string, printed: string, after: string)
    requires AllSpace(gap) && AllSpace(between) && AllSpace(after) && '`' !in printed
    requires tag == "" || Lower(tag) == "json"
    ensures '`' !in gap + (tag + between + printed) + after
  {
    forall i | 0 <= i < |tag| ensures tag[i] != '`' {
      assert Lower(tag)[i] == LowerChar(tag[i]) && Lower(tag)[i] in "json";
    }
  }

  lemma BlockIsTaken(
    pre: string, block: string, post: string, printed: string, accepts: string -> bool, r: Option<string>)
    requires '`' !in pre && '`' !in block && Untagged(block) == printed && printed != "" && accepts(printed)
    requires var reply := pre + (FENCE + block + FENCE) + post; !accepts(Strip(reply)) && Parsed(reply, accepts, r)
    ensures r == Some(printed)
  {
    var reply := pre + (FENCE + block + FENCE) + post;
    var all :| Candidates(reply, all) && Answers(all, accepts, r);
    FencedParts(pre, block, post);
    SecondIsFirstBlock(reply, all, StripLeft(pre), block, Split(StripRight(post), FENCE));
    assert FirstTaken(all, accepts, 1);
  }

  lemma SecondIsFirstBlock(text: string, all: seq<string>, before: string, block: string, others: seq<string>)
    requires Candidates(text, all) && Split(Strip(text), FENCE) == [before] + ([block] + others)
    ensures |all| >= 2 && all[0] == Strip(text) && all[1] == Untagged(block)
  {
    var parts := [before] + ([block] + others);
    assert Blocks(parts, 1) == [Untagged(block)] + Blocks(parts, 3);
  }
}
