/** The parts of Python's `str` that the modelled code uses. */
module Text {

  /** Characters `str.strip` removes. */
  predicate IsSpace(c: char) {
    '\t' <= c <= '\r' || '\U{1C}' <= c <= ' ' || c == '\U{85}' || c == '\U{A0}' || c == '\U{1680}'
    || '\U{2000}' <= c <= '\U{200A}' || c == '\U{2028}' || c == '\U{2029}' || c == '\U{202F}'
    || c == '\U{205F}' || c == '\U{3000}'
  }

  /** White space, character by character. */
  lemma Spaces(c: char)
    ensures IsSpace(c) <==> c in {
      '\U{9}', '\U{A}', '\U{B}', '\U{C}', '\U{D}', '\U{1C}', '\U{1D}', '\U{1E}', '\U{1F}', '\U{20}', '\U{85}',
      '\U{A0}', '\U{1680}', '\U{2000}', '\U{2001}', '\U{2002}', '\U{2003}', '\U{2004}', '\U{2005}', '\U{2006}',
      '\U{2007}', '\U{2008}', '\U{2009}', '\U{200A}', '\U{2028}', '\U{2029}', '\U{202F}', '\U{205F}', '\U{3000}'}
  {
  }

  function StripLeft(s: string): string
    decreases |s|
  {
    if s != [] && IsSpace(s[0]) then StripLeft(s[1..]) else s
  }

  function StripRight(s: string): string
    decreases |s|
  {
    if s != [] && IsSpace(s[|s| - 1]) then StripRight(s[..|s| - 1]) else s
  }

  function Strip(s: string): string { StripLeft(StripRight(s)) }

  function LowerChar(c: char): char { if 'A' <= c <= 'Z' then c - 'A' + 'a' else c }

  function Lower(s: string): string { seq(|s|, i requires 0 <= i < |s| => LowerChar(s[i])) }

  predicate OccursAt(text: string, part: string, i: nat) {
    i + |part| <= |text| && text[i..i + |part|] == part
  }

  predicate Contains(text: string, part: string) {
    exists i :: 0 <= i <= |text| && OccursAt(text, part, i)
  }

  // -------------------------------------------------------- stripping facts

  predicate AllSpace(s: string) { forall c :: c in s ==> IsSpace(c) }

  predicate Trimmed(s: string) { s == "" || (!IsSpace(s[0]) && !IsSpace(s[|s| - 1])) }

  lemma {:induction false} StripLeftParts(s: string) returns (pre: string)
    ensures s == pre + StripLeft(s) && AllSpace(pre)
    ensures StripLeft(s) == "" || !IsSpace(StripLeft(s)[0])
    decreases |s|
  {
    pre := "";
    if s != [] && IsSpace(s[0]) {
      pre := StripLeftParts(s[1..]);
      pre := [s[0]] + pre;
    }
  }

  lemma {:induction false} StripRightParts(s: string) returns (post: string)
    ensures s == StripRight(s) + post && AllSpace(post)
    ensures StripRight(s) == "" || !IsSpace(StripRight(s)[|StripRight(s)| - 1])
    decreases |s|
  {
    post := "";
    if s != [] && IsSpace(s[|s| - 1]) {
      post := StripRightParts(s[..|s| - 1]);
      post := post + [s[|s| - 1]];
    }
  }

  lemma StripParts(s: string) returns (pre: string, post: string)
    ensures s == pre + Strip(s) + post && AllSpace(pre) && AllSpace(post) && Trimmed(Strip(s))
  {
    post := StripRightParts(s);
    pre := StripLeftParts(StripRight(s));
    if Strip(s) != "" {
      assert StripRight(s)[|StripRight(s)| - 1] == Strip(s)[|Strip(s)| - 1];
    }
  }

  lemma {:induction false} StripRightOff(s: string, post: string)
    requires AllSpace(post)
    ensures StripRight(s + post) == StripRight(s)
    decreases |post|
  {
    if post == [] {
      assert s + post == s;
    } else {
      assert (s + post)[..|s + post| - 1] == s + post[..|post| - 1];
      StripRightOff(s, post[..|post| - 1]);
    }
  }

  lemma {:induction false} StripLeftOff(pre: string, s: string)
    requires AllSpace(pre)
    ensures StripLeft(pre + s) == StripLeft(s)
    decreases |pre|
  {
    if pre == [] {
      assert pre + s == s;
    } else {
      assert (pre + s)[1..] == pre[1..] + s;
      StripLeftOff(pre[1..], s);
    }
  }

  /** Stripping finds the trimmed middle, however the text is put together. */
  lemma StripMiddle(pre: string, middle: string, post: string)
    requires AllSpace(pre) && AllSpace(post) && Trimmed(middle)
    ensures Strip(pre + middle + post) == middle
  {
    StripRightOff(pre + middle, post);
    if middle == "" {
      assert pre + middle == "" + pre;
      StripRightOff("", pre);
    } else {
      assert (pre + middle)[|pre + middle| - 1] == middle[|middle| - 1];
      StripLeftOff(pre, middle);
    }
  }

  lemma StripPrefix(pre: string, s: string)
    requires AllSpace(pre)
    ensures Strip(pre + s) == Strip(s)
  {
    var p, q := StripParts(s);
    assert pre + s == (pre + p) + Strip(s) + q;
    StripMiddle(pre + p, Strip(s), q);
  }

  /** Lower-casing changes the letters of the alphabet and nothing else. */
  lemma LowerLetters(s: string, i: nat)
    requires i < |s|
    ensures |Lower(s)| == |s|
    ensures var big, small := "ABCDEFGHIJKLMNOPQRSTUVWXYZ", "abcdefghijklmnopqrstuvwxyz";
      if s[i] in big then exists k :: 0 <= k < 26 && s[i] == big[k] && Lower(s)[i] == small[k]
      else Lower(s)[i] == s[i]
  {
    var big, small := "ABCDEFGHIJKLMNOPQRSTUVWXYZ", "abcdefghijklmnopqrstuvwxyz";
    assert forall k :: 0 <= k < 26 ==> big[k] == 'A' + k as char && small[k] == 'a' + k as char;
    if 'A' <= s[i] <= 'Z' {
      assert big[s[i] as int - 65] == s[i] && small[s[i] as int - 65] == Lower(s)[i];
    }
  }

  // ------------------------------------------------- texts within other texts

  lemma OccursStart(text: string, part: string, i: nat)
    requires OccursAt(text, part, i) && |part| >= 2
    ensures text[i] == part[0] && text[i + 1] == part[1]
  {
    assert text[i..i + |part|][0] == part[0] && text[i..i + |part|][1] == part[1];
  }

  lemma ContainsTrans(text: string, part: string, pre: string, post: string)
    requires Contains(part, text)
    ensures Contains(pre + part + post, text)
  {
    var i :| 0 <= i <= |part| && OccursAt(part, text, i);
    var whole := pre + part + post;
    assert whole[|pre| + i..|pre| + i + |text|] == part[i..i + |text|];
    assert OccursAt(whole, text, |pre| + i);
  }

  /** What a character keeps apart cannot join up. */
  lemma ContainsApart(left: string, sep: char, right: string, part: string)
    requires sep !in part && Contains(left + [sep] + right, part)
    ensures Contains(left, part) || Contains(right, part)
  {
    var whole := left + [sep] + right;
    var i :| 0 <= i <= |whole| && OccursAt(whole, part, i);
    forall k | i <= k < i + |part| ensures whole[k] != sep {
      assert whole[k] == whole[i..i + |part|][k - i];
    }
    assert whole[|left|] == sep;
    if i + |part| <= |left| {
      assert left[i..i + |part|] == whole[i..i + |part|];
      assert OccursAt(left, part, i);
    } else if i > |left| {
      var j := i - |left| - 1;
      assert right[j..j + |part|] == whole[i..i + |part|];
      assert OccursAt(right, part, j);
    } else {
      assert false;
    }
  }

  lemma LowerConcat(a: string, b: string)
    ensures Lower(a + b) == Lower(a) + Lower(b)
  {
  }
}
