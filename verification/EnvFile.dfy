/** The local doctor's reader and rewriter of `.env` files
    (app/runtime/local_doctor.py). */
module EnvFile {
  import opened Text
  import opened Wrappers

  // ------------------------------------------------------------ lines of a file

  /** Characters at which `str.splitlines` ends a line. */
  predicate IsBreak(c: char) {
    '\n' <= c <= '\r' || '\U{1C}' <= c <= '\U{1E}' || c == '\U{85}' || c == '\U{2028}' || c == '\U{2029}'
  }

  /** The part before the first `=`, or everything. */
  function Before(s: string): string
    decreases |s|
  {
    if s == [] || s[0] == '=' then [] else [s[0]] + Before(s[1..])
  }

  /** The part after the first `=`. */
  function After(s: string): string
    decreases |s|
  {
    if s == [] then [] else if s[0] == '=' then s[1..] else After(s[1..])
  }

  // ---------------------------------------------------------- the reader

  type Env = map<string, string>

  function Unquote(v: string): string {
    if |v| >= 2 && v[0] == v[|v| - 1] && (v[0] == '\'' || v[0] == '"') then v[1..|v| - 1] else v
  }

  predicate Ignored(raw: string) {
    var line := Strip(raw);
    line == "" || line[0] == '#' || '=' !in line
  }

  /** What one line assigns, if anything. */
  function Assignment(raw: string): Option<(string, string)> {
    if Ignored(raw) then None
    else
      var line := Strip(raw);
      var key := Strip(Before(line));
      if key == "" then None else Some((key, Unquote(Strip(After(line)))))
  }

  function Assign(env: Env, raw: string): Env {
    match Assignment(raw)
    case Some((key, value)) => env[key := value]
    case None => env
  }

  /** Reading lines one after the other: the last assignment of a key wins. */
  function LoadFrom(env: Env, lines: seq<string>): Env
    decreases |lines|
  {
    if lines == [] then env else LoadFrom(Assign(env, lines[0]), lines[1..])
  }

  function Load(lines: seq<string>): Env { LoadFrom(map[], lines) }

  // ---------------------------------------------------------- the rewriter

  const ADMIN_KEY := "INTERNAL_ADMIN_API_KEY"
  const MODEL_KEY := "MODEL_SECRET_ENCRYPTION_KEY"
  const POSTGRES_KEY := "POSTGRES_PASSWORD"

  /** The generated keys in sorted order. */
  const RUNTIME_KEYS: seq<string> := [ADMIN_KEY, MODEL_KEY, POSTGRES_KEY]

  predicate IsPlaceholder(key: string, value: string) {
    var v := Strip(value);
    Lower(v) in {"", "change-me", "changeme", "replace-me", "todo", "your-domain.com", "your-domain.example.com"}
    || (key == ADMIN_KEY && v == "change-this-admin-key")
    || (key == POSTGRES_KEY && v == "change-this-password")
    || (key == MODEL_KEY && v == "change-this-32-byte-or-base64-secret")
  }

  predicate Needed(env: Env, key: string) { key !in env || IsPlaceholder(key, env[key]) }

  /** The secrets that this file gets. */
  function Generated(keys: seq<string>, env: Env, secrets: Env): Env {
    map key | key in secrets && key in keys && Needed(env, key) :: secrets[key]
  }

  function RewriteLine(generated: Env, line: string): string {
    if Ignored(line) then line
    else
      var key := Strip(Before(line));
      if key in generated then key + "=" + generated[key] else line
  }

  function RewriteLines(generated: Env, lines: seq<string>): seq<string> {
    seq(|lines|, i requires 0 <= i < |lines| => RewriteLine(generated, lines[i]))
  }

  predicate Assigns(line: string, key: string) { !Ignored(line) && Strip(Before(line)) == key }

  predicate Seen(lines: seq<string>, key: string) {
    exists i :: 0 <= i < |lines| && Assigns(lines[i], key)
  }

  /** Lines appended for the generated keys of `keys` that the file never assigns. */
  function Appended(generated: Env, lines: seq<string>, keys: seq<string>): seq<string>
    decreases |keys|
  {
    if keys == [] then []
    else if keys[0] in generated && !Seen(lines, keys[0]) then
      [keys[0] + "=" + generated[keys[0]]] + Appended(generated, lines, keys[1..])
    else Appended(generated, lines, keys[1..])
  }

  function Header(lines: seq<string>): seq<string> {
    (if lines != [] && Strip(lines[|lines| - 1]) != "" then [""] else []) + ["# Generated local runtime secrets"]
  }

  function Rewrite(keys: seq<string>, lines: seq<string>, secrets: Env): seq<string> {
    var generated := Generated(keys, Load(lines), secrets);
    var updated := RewriteLines(generated, lines);
    var appended := Appended(generated, lines, keys);
    if appended == [] then updated else updated + Header(updated) + appended
  }

  // ---------------------------------------------------------- file text

  function FirstBreak(s: string): (n: nat)
    ensures n <= |s| && (n < |s| ==> IsBreak(s[n]))
    ensures forall i :: 0 <= i < n ==> !IsBreak(s[i])
    decreases |s|
  {
    if s == [] || IsBreak(s[0]) then 0 else 1 + FirstBreak(s[1..])
  }

  /** `str.splitlines`: `\r\n` is one break, and a final break starts no line. */
  function SplitLines(s: string): (lines: seq<string>)
    ensures forall line :: line in lines ==> OneLine(line)
    decreases |s|
  {
    if s == [] then []
    else
      var n := FirstBreak(s);
      if n == |s| then [s]
      else
        var skip := if s[n] == '\r' && n + 1 < |s| && s[n + 1] == '\n' then 2 else 1;
        [s[..n]] + SplitLines(s[n + skip..])
  }

  predicate OneLine(line: string) { forall c :: c in line ==> !IsBreak(c) }

  function Join(lines: seq<string>): string
    decreases |lines|
  {
    if lines == [] then "" else if |lines| == 1 then lines[0] else lines[0] + "\n" + Join(lines[1..])
  }

  function FileText(lines: seq<string>): string { Join(lines) + "\n" }

  function LoadText(text: string): Env { Load(SplitLines(text)) }

  /** The file after the rewrite; it is not written when nothing is generated. */
  function RewriteText(keys: seq<string>, text: string, secrets: Env): string {
    if Generated(keys, LoadText(text), secrets) == map[] then text
    else FileText(Rewrite(keys, SplitLines(text), secrets))
  }

  /** What `secrets.token_urlsafe(32)` and its base64 variant return: 43 characters
      of the URL-safe alphabet. */
  predicate IsSecret(s: string) { |s| == 43 && IsWord(s) }

  predicate IsWord(s: string) {
    s != "" && forall i :: 0 <= i < |s| ==>
      'a' <= s[i] <= 'z' || 'A' <= s[i] <= 'Z' || '0' <= s[i] <= '9' || s[i] == '-' || s[i] == '_'
  }

  predicate FreshSecrets(keys: seq<string>, secrets: Env) {
    forall key :: key in keys ==> key in secrets && IsSecret(secrets[key])
  }

  predicate Names(keys: seq<string>) { forall key :: key in keys ==> IsWord(key) }

  lemma AdminKeyIsWord()
    ensures IsWord(ADMIN_KEY)
  {
  }

  lemma ModelKeyIsWord()
    ensures IsWord(MODEL_KEY)
  {
  }

  lemma PostgresKeyIsWord()
    ensures IsWord(POSTGRES_KEY)
  {
  }

  lemma RuntimeKeysAreNames()
    ensures Names(RUNTIME_KEYS)
  {
    AdminKeyIsWord();
    ModelKeyIsWord();
    PostgresKeyIsWord();
  }

  class EnvPath {
    var content: Option<string>

    constructor (content: Option<string>)
      ensures this.content == content
    {
      this.content := content;
    }

    method LoadEnvFile() returns (values: Env)
      ensures values == match content case None => map[] case Some(text) => LoadText(text)
    {
      values := map[];
      if content.None? {
        return;
      }
      var lines := SplitLines(content.value);
      for i := 0 to |lines|
        invariant LoadFrom(values, lines[i..]) == Load(lines)
      {
        assert lines[i..][1..] == lines[i + 1..];
        var line := Strip(lines[i]);
        if line == "" || line[0] == '#' || '=' !in line {
          continue;
        }
        var key := Strip(Before(line));
        var value := Unquote(Strip(After(line)));
        if key != "" {
          values := values[key := value];
        }
      }
    }

    /** `keys` are the generated keys in sorted order; the caller draws the secrets. */
    method GenerateLocalRuntimeSecrets(keys: seq<string>, secrets: Env) returns (names: seq<string>)
      requires content.Some? && FreshSecrets(keys, secrets)
      modifies this
      ensures content == Some(RewriteText(keys, old(content).value, secrets))
      ensures forall key :: key in names <==> key in Generated(keys, LoadText(old(content).value), secrets)
    {
      var env := LoadEnvFile();
      var generated: Env := map[];
      names := [];
      for i := 0 to |keys|
        invariant generated == Generated(keys[..i], env, secrets)
        invariant forall key :: key in names <==> key in generated
      {
        var key := keys[i];
        assert keys[..i + 1] == keys[..i] + [key];
        if key !in env || IsPlaceholder(key, env[key]) {
          generated := generated[key := secrets[key]];
          names := names + [key];
        }
      }
      assert keys[..|keys|] == keys;
      if |names| == 0 {
        return;
      }
      assert names[0] in generated;
      var lines := SplitLines(content.value);
      var updated, seen := RewriteSeen(generated, lines);
      var missing := MissingLines(keys, generated, lines, seen);
      if missing != [] {
        updated := updated + Header(updated) + missing;
      }
      content := Some(FileText(updated));
    }
  }

  method MissingLines(keys: seq<string>, generated: Env, lines: seq<string>, seen: set<string>)
    returns (missing: seq<string>)
    requires forall key :: key in seen <==> key in generated && Seen(lines, key)
    ensures missing == Appended(generated, lines, keys)
  {
    missing := [];
    for i := 0 to |keys|
      invariant missing + Appended(generated, lines, keys[i..]) == Appended(generated, lines, keys)
    {
      var key := keys[i];
      assert keys[i..][1..] == keys[i + 1..];
      if key in generated && key !in seen {
        missing := missing + [key + "=" + generated[key]];
      }
    }
  }

  /** The pass over the lines: replaces the generated keys and notes which it saw. */
  method RewriteSeen(generated: Env, lines: seq<string>) returns (updated: seq<string>, seen: set<string>)
    ensures updated == RewriteLines(generated, lines)
    ensures forall key :: key in seen <==> key in generated && Seen(lines, key)
  {
    seen, updated := {}, [];
    for i := 0 to |lines|
      invariant updated == RewriteLines(generated, lines[..i])
      invariant forall key :: key in seen <==> key in generated && Seen(lines[..i], key)
    {
      SeenNext(lines, i);
      RewriteNext(generated, lines, i);
      var key := Strip(Before(lines[i]));
      if !Ignored(lines[i]) && key in generated {
        seen := seen + {key};
        updated := updated + [key + "=" + generated[key]];
      } else {
        updated := updated + [lines[i]];
      }
    }
    assert lines[..|lines|] == lines;
  }

  lemma RewriteNext(generated: Env, lines: seq<string>, i: nat)
    requires i < |lines|
    ensures RewriteLines(generated, lines[..i + 1])
      == RewriteLines(generated, lines[..i]) + [RewriteLine(generated, lines[i])]
  {
  }

  lemma SeenOneMore(lines: seq<string>, i: nat, key: string)
    requires i < |lines|
    ensures Seen(lines[..i + 1], key) <==> Seen(lines[..i], key) || Assigns(lines[i], key)
  {
    var before, after := lines[..i], lines[..i + 1];
    assert after == before + [lines[i]];
    if j :| 0 <= j < |before| && Assigns(before[j], key) {
      assert after[j] == before[j];
    }
    if j :| 0 <= j < |after| && Assigns(after[j], key) {
      assert j < i ==> before[j] == after[j];
    }
    assert after[i] == lines[i];
  }

  lemma SeenNext(lines: seq<string>, i: nat)
    requires i < |lines|
    ensures forall key :: Seen(lines[..i + 1], key) <==> Seen(lines[..i], key) || Assigns(lines[i], key)
  {
    forall key
      ensures Seen(lines[..i + 1], key) <==> Seen(lines[..i], key) || Assigns(lines[i], key)
    {
      SeenOneMore(lines, i, key);
    }
  }

  // --------------------------------------------------------- keys of a line

  lemma {:induction false} BeforeConcat(a: string, b: string)
    ensures Before(a + b) == if '=' in a then Before(a) else a + Before(b)
    ensures '=' in a ==> After(a + b) == After(a) + b
    ensures '=' !in a ==> After(a + b) == After(b)
    decreases |a|
  {
    if a == [] {
      assert a + b == b;
    } else {
      assert (a + b)[1..] == a[1..] + b;
      BeforeConcat(a[1..], b);
    }
  }

  lemma BeforeOuter(pre: string, line: string, post: string)
    requires AllSpace(pre) && '=' in line
    ensures Before(pre + line + post) == pre + Before(line)
  {
    BeforeConcat(line, post);
    BeforeConcat(pre, line + post);
    assert pre + line + post == pre + (line + post);
    assert '=' !in pre;
  }

  /** Reader and rewriter agree on the key of a line, though one strips first. */
  lemma SameKey(raw: string)
    requires !Ignored(raw)
    ensures Strip(Before(Strip(raw))) == Strip(Before(raw))
  {
    var pre, post := StripParts(raw);
    BeforeOuter(pre, Strip(raw), post);
    StripPrefix(pre, Before(Strip(raw)));
  }

  lemma AssignsKey(raw: string, key: string)
    requires key != ""
    ensures Assigns(raw, key) <==> (Assignment(raw).Some? && Assignment(raw).value.0 == key)
  {
    if !Ignored(raw) {
      SameKey(raw);
    }
  }

  // ------------------------------------------------- what the rewrite loads

  lemma WordTrimmed(s: string)
    requires IsWord(s)
    ensures Strip(s) == s && '=' !in s && OneLine(s) && Unquote(s) == s && s[0] != '#'
  {
    StripMiddle("", s, "");
    assert "" + s + "" == s;
  }

  lemma KeyAndValue(key: string, secret: string)
    requires '=' !in key
    ensures Before(key + "=" + secret) == key && After(key + "=" + secret) == secret
  {
    var rest := "=" + secret;
    assert key + "=" + secret == key + rest;
    BeforeConcat(key, rest);
    assert rest[0] == '=' && rest[1..] == secret;
    assert key + [] == key;
  }

  lemma WordLineIsOne(key: string, secret: string)
    requires OneLine(key) && OneLine(secret)
    ensures OneLine(key + "=" + secret)
  {
    forall c | c in key + "=" + secret ensures !IsBreak(c) {
      assert c in key || c == '=' || c in secret;
    }
  }

  lemma SecretLine(key: string, secret: string)
    requires IsWord(key) && IsWord(secret)
    ensures Assignment(key + "=" + secret) == Some((key, secret))
    ensures OneLine(key + "=" + secret)
  {
    WordTrimmed(key);
    WordTrimmed(secret);
    LineTrimmed(key, secret);
    KeyAndValue(key, secret);
    WordLineIsOne(key, secret);
    LineIsRead(key, secret, key + "=" + secret);
  }

  /** What a line assigns, from its parts. */
  lemma LineIsRead(key: string, secret: string, line: string)
    requires line == key + "=" + secret && Strip(line) == line && Before(line) == key && After(line) == secret
    requires key != "" && key[0] != '#' && Strip(key) == key && Unquote(Strip(secret)) == secret
    ensures Assignment(line) == Some((key, secret))
  {
    assert line[|key|] == '=' && line[0] == key[0];
  }

  lemma LineTrimmed(key: string, secret: string)
    requires IsWord(key) && IsWord(secret)
    ensures Strip(key + "=" + secret) == key + "=" + secret
  {
    var line := key + "=" + secret;
    assert line[0] == key[0] && line[|line| - 1] == secret[|secret| - 1];
    StripMiddle("", line, "");
    assert "" + line + "" == line;
  }

  /** The key and the value of a stripped line. */
  lemma ReadsParts(raw: string, line: string, left: string, right: string)
    requires Strip(raw) == line && line == left + "=" + right && '=' !in left
    requires line[0] != '#' && Strip(left) != ""
    ensures Assignment(raw) == Some((Strip(left), Unquote(Strip(right))))
  {
    KeyAndValue(left, right);
    assert line[|left|] == '=';
  }

  /** How a line is read: white space around the key, the `=` and the value is nothing, and
      one pair of equal quotes around the value is taken off. */
  lemma LineReads(pre: string, key: string, gap: string, between: string, value: string, post: string)
    requires AllSpace(pre) && AllSpace(gap) && AllSpace(between) && AllSpace(post)
    requires Trimmed(key) && key != "" && key[0] != '#' && '=' !in key && Trimmed(value)
    ensures Assignment(pre + (key + gap + "=" + (between + value)) + post) == Some((key,
      if |value| >= 2 && value[0] == value[|value| - 1] && value[0] in {'"', '\''} then value[1..|value| - 1]
      else value))
  {
    PartsTrimmed(key, gap, between, value);
    if value != "" {
      var line := key + gap + "=" + (between + value);
      assert line[0] == key[0] && line[|line| - 1] == value[|value| - 1];
      StripMiddle(pre, line, post);
      ReadsParts(pre + line + post, line, key + gap, between + value);
    } else {
      EmptyValueReads(pre, key, gap, between, post);
    }
  }

  lemma PartsTrimmed(key: string, gap: string, between: string, value: string)
    requires AllSpace(gap) && AllSpace(between) && Trimmed(key) && Trimmed(value)
    ensures Strip(key + gap) == key && Strip(between + value) == value
  {
    StripMiddle("", key, gap);
    assert "" + key + gap == key + gap;
    StripMiddle(between, value, "");
    assert between + value + "" == between + value;
  }

  lemma EmptyValueReads(pre: string, key: string, gap: string, between: string, post: string)
    requires AllSpace(pre) && AllSpace(gap) && AllSpace(between) && AllSpace(post)
    requires Trimmed(key) && key != "" && key[0] != '#' && '=' !in key
    ensures Assignment(pre + (key + gap + "=" + (between + "")) + post) == Some((key, ""))
  {
    var line := key + gap + "=" + "";
    var raw := pre + (key + gap + "=" + (between + "")) + post;
    PartsTrimmed(key, gap, "", "");
    assert line[0] == key[0] && line[|line| - 1] == '=';
    assert raw == pre + line + (between + post);
    StripMiddle(pre, line, between + post);
    ReadsParts(raw, line, key + gap, "");
  }

  /** Blank lines, comments and lines without `=` or a key before it assign nothing. */
  lemma NothingRead(pre: string, line: string, post: string)
    requires AllSpace(pre) && AllSpace(post) && Trimmed(line)
    requires line == "" || line[0] in {'#', '='} || '=' !in line
    ensures Assignment(pre + line + post) == None
  {
    StripMiddle(pre, line, post);
  }

  lemma {:induction false} LoadConcat(env: Env, a: seq<string>, b: seq<string>)
    ensures LoadFrom(env, a + b) == LoadFrom(LoadFrom(env, a), b)
    decreases |a|
  {
    if a == [] {
      assert a + b == b;
    } else {
      assert (a + b)[1..] == a[1..] + b;
      LoadConcat(Assign(env, a[0]), a[1..], b);
    }
  }

  /** A key is loaded exactly when some line assigns it. */
  lemma {:induction false} LoadedIffSeen(env: Env, lines: seq<string>, key: string)
    requires key != ""
    ensures key in LoadFrom(env, lines) <==> key in env || Seen(lines, key)
    decreases |lines|
  {
    if lines != [] {
      var env' := Assign(env, lines[0]);
      LoadedIffSeen(env', lines[1..], key);
      AssignsKey(lines[0], key);
      if Seen(lines[1..], key) {
        var i :| 0 <= i < |lines| - 1 && Assigns(lines[1..][i], key);
        assert Assigns(lines[i + 1], key);
      }
      if Seen(lines, key) {
        var i :| 0 <= i < |lines| && Assigns(lines[i], key);
        if i > 0 {
          assert Assigns(lines[1..][i - 1], key);
        }
      }
    }
  }

  ghost predicate Good(generated: Env) {
    forall key :: key in generated ==> IsWord(key) && IsSecret(generated[key])
  }

  /** `after` is `before` with the generated keys that it has replaced. */
  ghost predicate Replaced(generated: Env, before: Env, after: Env) {
    && after.Keys == before.Keys
    && forall key :: key in before ==> after[key] == if key in generated then generated[key] else before[key]
  }

  lemma RewrittenLineAssigns(generated: Env, line: string, before: Env, after: Env)
    requires Good(generated) && Replaced(generated, before, after)
    ensures Replaced(generated, Assign(before, line), Assign(after, RewriteLine(generated, line)))
  {
    if !Ignored(line) {
      SameKey(line);
      var key := Strip(Before(line));
      if key in generated {
        SecretLine(key, generated[key]);
      }
    }
  }

  lemma {:induction false} RewrittenLinesLoad(generated: Env, lines: seq<string>, before: Env, after: Env)
    requires Good(generated) && Replaced(generated, before, after)
    ensures Replaced(generated, LoadFrom(before, lines), LoadFrom(after, RewriteLines(generated, lines)))
    decreases |lines|
  {
    if lines != [] {
      var updated := RewriteLines(generated, lines);
      RewrittenLineAssigns(generated, lines[0], before, after);
      assert updated[1..] == RewriteLines(generated, lines[1..]);
      RewrittenLinesLoad(generated, lines[1..], Assign(before, lines[0]), Assign(after, updated[0]));
    }
  }

  function Missing(generated: Env, lines: seq<string>, keys: seq<string>): Env {
    map key | key in generated && key in keys && !Seen(lines, key) :: generated[key]
  }

  lemma MissingNext(generated: Env, lines: seq<string>, keys: seq<string>, env: Env)
    requires keys != []
    ensures var key := keys[0];
      env + Missing(generated, lines, keys) ==
        if key in generated && !Seen(lines, key) then env[key := generated[key]] + Missing(generated, lines, keys[1..])
        else env + Missing(generated, lines, keys[1..])
  {
    assert keys == [keys[0]] + keys[1..];
  }

  lemma {:induction false} AppendedLinesLoad(generated: Env, lines: seq<string>, keys: seq<string>, env: Env)
    requires Good(generated)
    ensures LoadFrom(env, Appended(generated, lines, keys)) == env + Missing(generated, lines, keys)
    decreases |keys|
  {
    if keys != [] {
      var key := keys[0];
      MissingNext(generated, lines, keys, env);
      if key in generated && !Seen(lines, key) {
        SecretLine(key, generated[key]);
        var appended := Appended(generated, lines, keys);
        assert appended[1..] == Appended(generated, lines, keys[1..]);
        AppendedLinesLoad(generated, lines, keys[1..], env[key := generated[key]]);
      } else {
        AppendedLinesLoad(generated, lines, keys[1..], env);
      }
    }
  }

  lemma HeaderIgnored(env: Env, lines: seq<string>)
    ensures LoadFrom(env, Header(lines)) == env
  {
    var title := "# Generated local runtime secrets";
    StripMiddle("", title, "");
    assert "" + title + "" == title;
    LoadConcat(env, if lines != [] && Strip(lines[|lines| - 1]) != "" then [""] else [], [title]);
  }

  lemma MergeReplaced(generated: Env, keys: seq<string>, lines: seq<string>, before: Env, after: Env)
    requires Replaced(generated, before, after)
    requires forall key :: key in generated ==> key in keys && (key in before <==> Seen(lines, key))
    ensures after + Missing(generated, lines, keys)
      == before + generated
  {
  }

  lemma RewriteLoads(keys: seq<string>, lines: seq<string>, secrets: Env)
    ensures var generated := Generated(keys, Load(lines), secrets);
      Load(Rewrite(keys, lines, secrets))
        == LoadFrom(Load(RewriteLines(generated, lines)), Appended(generated, lines, keys))
  {
    var generated := Generated(keys, Load(lines), secrets);
    var updated := RewriteLines(generated, lines);
    var appended := Appended(generated, lines, keys);
    HeaderIgnored(Load(updated), updated);
    LoadConcat(map[], updated + Header(updated), appended);
    LoadConcat(map[], updated, Header(updated));
  }

  /** Loading the rewritten lines gives the old values with exactly the generated
      keys replaced or added. */
  lemma RewriteUpdatesMap(keys: seq<string>, lines: seq<string>, secrets: Env)
    requires Names(keys) && FreshSecrets(keys, secrets)
    ensures Load(Rewrite(keys, lines, secrets)) == Load(lines) + Generated(keys, Load(lines), secrets)
  {
    var generated := Generated(keys, Load(lines), secrets);
    var after := Load(RewriteLines(generated, lines));
    RewriteLoads(keys, lines, secrets);
    RewrittenLinesLoad(generated, lines, map[], map[]);
    AppendedLinesLoad(generated, lines, keys, after);
    forall key | key in generated ensures key in Load(lines) <==> Seen(lines, key) {
      LoadedIffSeen(map[], lines, key);
    }
    MergeReplaced(generated, keys, lines, Load(lines), after);
  }

  // ------------------------------------------------------ down to the text

  lemma {:induction false} FirstBreakAfter(line: string, rest: string)
    requires OneLine(line)
    ensures FirstBreak(line + "\n" + rest) == |line|
    decreases |line|
  {
    if line != [] {
      assert (line + "\n" + rest)[1..] == line[1..] + "\n" + rest;
      FirstBreakAfter(line[1..], rest);
    }
  }

  lemma {:induction false} SplitJoined(lines: seq<string>)
    requires lines != [] && forall line :: line in lines ==> OneLine(line)
    ensures SplitLines(FileText(lines)) == lines
    decreases |lines|
  {
    var line := lines[0];
    if |lines| == 1 {
      FirstBreakAfter(line, "");
      assert FileText(lines) == line + "\n" + "";
      assert FileText(lines)[|line| + 1..] == "";
    } else {
      var rest := FileText(lines[1..]);
      assert FileText(lines) == line + "\n" + rest;
      FirstBreakAfter(line, rest);
      assert FileText(lines)[|line| + 1..] == rest;
      SplitJoined(lines[1..]);
    }
    assert FileText(lines)[..|line|] == line;
  }

  lemma {:induction false} FirstBreakAt(line: string, rest: string)
    requires OneLine(line) && rest != "" && IsBreak(rest[0])
    ensures FirstBreak(line + rest) == |line|
    decreases |line|
  {
    if line == [] {
      assert line + rest == rest;
    } else {
      assert (line + rest)[1..] == line[1..] + rest;
      FirstBreakAt(line[1..], rest);
    }
  }

  /** Files of any system: a line ends at `\r\n`, `\n` or `\r` alike. */
  lemma LineEnds(line: string, mark: string, rest: string)
    requires OneLine(line) && mark in {"\r\n", "\n", "\r"}
    requires mark == "\r" ==> rest == "" || rest[0] != '\n'
    ensures SplitLines(line + mark + rest) == [line] + SplitLines(rest)
  {
    var s := line + (mark + rest);
    assert line + mark + rest == s;
    FirstBreakAt(line, mark + rest);
    assert s[|line|] == mark[0];
    assert |s| > |line| + 1 ==> s[|line| + 1] == (mark + rest)[1];
    assert s[..|line|] == line && s[|line| + |mark|..] == rest;
  }

  lemma {:induction false} AppendedOneLine(generated: Env, lines: seq<string>, keys: seq<string>)
    requires Good(generated)
    ensures forall line :: line in Appended(generated, lines, keys) ==> OneLine(line)
    decreases |keys|
  {
    if keys != [] {
      if keys[0] in generated {
        SecretLine(keys[0], generated[keys[0]]);
      }
      AppendedOneLine(generated, lines, keys[1..]);
    }
  }

  lemma TitleOneLine()
    ensures OneLine("# Generated local runtime secrets")
  {
  }

  lemma HeaderOneLine(lines: seq<string>)
    ensures forall line :: line in Header(lines) ==> OneLine(line)
  {
    TitleOneLine();
    assert OneLine("");
    forall line | line in Header(lines) ensures OneLine(line) {
      assert line == "" || line == "# Generated local runtime secrets";
    }
  }

  lemma UpdatedOneLine(generated: Env, lines: seq<string>)
    requires Good(generated) && forall line :: line in lines ==> OneLine(line)
    ensures forall line :: line in RewriteLines(generated, lines) ==> OneLine(line)
  {
    forall i | 0 <= i < |lines| ensures OneLine(RewriteLine(generated, lines[i])) {
      assert lines[i] in lines;
      var key := Strip(Before(lines[i]));
      if key in generated {
        SecretLine(key, generated[key]);
      }
    }
  }

  lemma RewriteOneLine(keys: seq<string>, lines: seq<string>, secrets: Env)
    requires Names(keys) && FreshSecrets(keys, secrets) && forall line :: line in lines ==> OneLine(line)
    ensures forall line :: line in Rewrite(keys, lines, secrets) ==> OneLine(line)
  {
    var generated := Generated(keys, Load(lines), secrets);
    UpdatedOneLine(generated, lines);
    AppendedOneLine(generated, lines, keys);
    HeaderOneLine(RewriteLines(generated, lines));
  }

  /** Rewriting the file is a map update on what it loads. */
  lemma RewriteTextUpdatesMap(keys: seq<string>, text: string, secrets: Env)
    requires Names(keys) && FreshSecrets(keys, secrets)
    ensures LoadText(RewriteText(keys, text, secrets)) == LoadText(text) + Generated(keys, LoadText(text), secrets)
  {
    var lines := SplitLines(text);
    var generated := Generated(keys, Load(lines), secrets);
    if generated == map[] {
      assert Load(lines) + generated == Load(lines);
    } else {
      RewriteUpdatesMap(keys, lines, secrets);
      RewriteSplits(keys, lines, secrets);
    }
  }

  /** What the file loads afterwards, key by key: the three runtime keys are generated
      when they are missing or hold a placeholder, and nothing else changes. */
  lemma PlaceholdersAreReplaced(text: string, secrets: Env, key: string)
    requires FreshSecrets(RUNTIME_KEYS, secrets)
    ensures var before := LoadText(text); var after := LoadText(RewriteText(RUNTIME_KEYS, text, secrets));
      if key !in {"INTERNAL_ADMIN_API_KEY", "MODEL_SECRET_ENCRYPTION_KEY", "POSTGRES_PASSWORD"} then
        (key in after <==> key in before) && (key in before ==> after[key] == before[key])
      else
        key in after && key in secrets
        && after[key] == if key !in before then secrets[key]
                         else
                           var value := Strip(before[key]);
                           if Lower(value) in {"", "change-me", "changeme", "replace-me", "todo",
                                               "your-domain.com", "your-domain.example.com"}
                              || value == (if key == "INTERNAL_ADMIN_API_KEY" then "change-this-admin-key"
                                           else if key == "POSTGRES_PASSWORD" then "change-this-password"
                                           else "change-this-32-byte-or-base64-secret") then secrets[key]
                           else before[key]
  {
    RuntimeKeysAreNames();
    assert RUNTIME_KEYS[0] == ADMIN_KEY && RUNTIME_KEYS[1] == MODEL_KEY && RUNTIME_KEYS[2] == POSTGRES_KEY;
    RewriteTextUpdatesMap(RUNTIME_KEYS, text, secrets);
  }

  /** Line by line: comments, blank lines and the lines of all other keys stay as they
      are, where they are; whatever is new comes after them. */
  lemma OtherLinesKept(keys: seq<string>, text: string, secrets: Env)
    requires Names(keys) && FreshSecrets(keys, secrets)
    ensures var lines := SplitLines(text); var after := SplitLines(RewriteText(keys, text, secrets));
      |after| >= |lines|
      && forall i :: 0 <= i < |lines|
           && (Ignored(lines[i]) || Strip(Before(lines[i])) !in Generated(keys, Load(lines), secrets))
           ==> after[i] == lines[i]
  {
    var lines := SplitLines(text);
    if Generated(keys, Load(lines), secrets) != map[] {
      RewriteSplits(keys, lines, secrets);
      RewriteLineByLine(keys, lines, secrets);
    }
  }

  lemma RewriteSplits(keys: seq<string>, lines: seq<string>, secrets: Env)
    requires Names(keys) && FreshSecrets(keys, secrets) && Generated(keys, Load(lines), secrets) != map[]
    requires forall line :: line in lines ==> OneLine(line)
    ensures SplitLines(FileText(Rewrite(keys, lines, secrets))) == Rewrite(keys, lines, secrets)
  {
    var key :| key in Generated(keys, Load(lines), secrets);
    RewriteUpdatesMap(keys, lines, secrets);
    assert key in Load(Rewrite(keys, lines, secrets));
    RewriteOneLine(keys, lines, secrets);
    SplitJoined(Rewrite(keys, lines, secrets));
  }

  lemma RewriteLineByLine(keys: seq<string>, lines: seq<string>, secrets: Env)
    ensures var generated := Generated(keys, Load(lines), secrets); var after := Rewrite(keys, lines, secrets);
      |after| >= |lines| && forall i :: 0 <= i < |lines| ==> after[i] == RewriteLine(generated, lines[i])
  {
  }

  lemma SecretNotPlaceholder(key: string, secret: string)
    requires IsSecret(secret)
    ensures !IsPlaceholder(key, secret)
  {
    assert secret[0] in secret && secret[|secret| - 1] in secret;
    StripMiddle("", secret, "");
    assert "" + secret + "" == secret;
    assert |Lower(secret)| == 43;
  }

  /** A second rewrite finds nothing to generate and leaves the file alone. */
  lemma SecondRewriteGeneratesNothing(keys: seq<string>, text: string, secrets: Env, others: Env)
    requires Names(keys) && FreshSecrets(keys, secrets)
    ensures Generated(keys, LoadText(RewriteText(keys, text, secrets)), others) == map[]
    ensures RewriteText(keys, RewriteText(keys, text, secrets), others) == RewriteText(keys, text, secrets)
  {
    RewriteTextUpdatesMap(keys, text, secrets);
    var env := LoadText(text);
    forall key | key in keys ensures !Needed(LoadText(RewriteText(keys, text, secrets)), key) {
      if Needed(env, key) {
        SecretNotPlaceholder(key, secrets[key]);
      }
    }
  }
}
