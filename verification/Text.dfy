/** The string operations the nginx scanner is built from. */
module Text {

  /** White space as Unicode defines it. */
  predicate IsSpace(c: char) {
    c in {' ', '\t', '\n', '\U{b}', '\U{c}', '\r', '\U{85}', '\U{a0}', '\U{1680}', '\U{2028}', '\U{2029}',
          '\U{202f}', '\U{205f}', '\U{3000}'} || '\U{2000}' <= c <= '\U{200a}'
  }

  predicate Spaces(s: string) {
    forall i :: 0 <= i < |s| ==> IsSpace(s[i])
  }

  predicate NoSpace(s: string) {
    forall i :: 0 <= i < |s| ==> !IsSpace(s[i])
  }

  predicate HasPrefix(s: string, prefix: string) {
    prefix <= s
  }

  predicate Contains(s: string, sub: string) {
    HasPrefix(s, sub) || (s != "" && Contains(s[1..], sub))
  }

  /** sub stands somewhere in s. */
  lemma {:induction false} ContainsAt(s: string, sub: string)
    ensures Contains(s, sub) <==> exists i :: 0 <= i && i + |sub| <= |s| && s[i..][..|sub|] == sub
  {
    if HasPrefix(s, sub) {
      assert s[0..][..|sub|] == sub;
    } else if s != "" {
      ContainsAt(s[1..], sub);
      assert s[0..] == s;
      if i :| 0 <= i && i + |sub| <= |s| && s[i..][..|sub|] == sub {
        assert s[1..][i - 1..] == s[i..];
      }
      if i :| 0 <= i && i + |sub| <= |s[1..]| && s[1..][i..][..|sub|] == sub {
        assert s[1..][i..] == s[i + 1..];
      }
    }
  }

  function Count(s: string, c: char): nat {
    if s == "" then 0 else Count(s[1..], c) + if s[0] == c then 1 else 0
  }

  function TrimLeft(s: string): string {
    if s != "" && IsSpace(s[0]) then TrimLeft(s[1..]) else s
  }

  function TrimEnd(s: string): string {
    if s != "" && IsSpace(s[|s| - 1]) then TrimEnd(s[..|s| - 1]) else s
  }

  function TrimSpace(s: string): string {
    TrimEnd(TrimLeft(s))
  }

  /** Drops every trailing occurrence of c. */
  function TrimRight(s: string, c: char): string {
    if s != "" && s[|s| - 1] == c then TrimRight(s[..|s| - 1], c) else s
  }

  /** How many leading characters are not white space. */
  function WordLength(s: string): (k: nat)
    ensures k <= |s|
  {
    if s == "" || IsSpace(s[0]) then 0 else 1 + WordLength(s[1..])
  }

  /** The words of s, separated by white space. */
  function Fields(s: string): seq<string>
    decreases |s|
  {
    if s == "" then []
    else if IsSpace(s[0]) then Fields(s[1..])
    else
      var k := 1 + WordLength(s[1..]);
      [s[..k]] + Fields(s[k..])
  }

  // ---- single characters ----

  lemma {:induction false} ContainsChar(s: string, c: char)
    ensures Contains(s, [c]) <==> c in s
  {
    if s != "" {
      ContainsChar(s[1..], c);
      assert s == [s[0]] + s[1..];
    }
  }

  lemma {:induction false} CountPositive(s: string, c: char)
    ensures Count(s, c) > 0 <==> c in s
  {
    if s != "" {
      CountPositive(s[1..], c);
      assert s == [s[0]] + s[1..];
    }
  }

  lemma {:induction false} CountConcat(a: string, b: string, c: char)
    ensures Count(a + b, c) == Count(a, c) + Count(b, c)
  {
    if a == "" {
      assert a + b == b;
    } else {
      CountConcat(a[1..], b, c);
      assert (a + b)[1..] == a[1..] + b;
    }
  }

  lemma TrimOnce(s: string, c: char)
    requires s == "" || s[|s| - 1] != c
    ensures TrimRight(s + [c], c) == s
  {
    assert (s + [c])[..|s|] == s;
  }

  lemma TrimWord(s: string)
    requires NoSpace(s)
    ensures TrimSpace(s) == s
  {
  }

  lemma {:induction false} TrimRightPart(s: string, c: char)
    ensures TrimRight(s, c) <= s
  {
    if s != "" && s[|s| - 1] == c {
      TrimRightPart(s[..|s| - 1], c);
    }
  }

  // ---- words and gaps ----

  lemma {:induction false} FieldsSkip(gap: string, s: string)
    requires Spaces(gap)
    ensures Fields(gap + s) == Fields(s)
  {
    if gap == "" {
      assert gap + s == s;
    } else {
      FieldsSkip(gap[1..], s);
      assert (gap + s)[1..] == gap[1..] + s;
    }
  }

  lemma {:induction false} WordLengthIs(w: string, s: string)
    requires NoSpace(w) && (s == "" || IsSpace(s[0]))
    ensures WordLength(w + s) == |w|
  {
    if w == "" {
      assert w + s == s;
    } else {
      WordLengthIs(w[1..], s);
      assert (w + s)[1..] == w[1..] + s;
    }
  }

  lemma FieldsWord(w: string, s: string)
    requires w != "" && NoSpace(w) && (s == "" || IsSpace(s[0]))
    ensures Fields(w + s) == [w] + Fields(s)
  {
    WordLengthIs(w[1..], s);
    assert (w + s)[1..] == w[1..] + s;
    assert (w + s)[..|w|] == w && (w + s)[|w|..] == s;
  }

  /** Every word is free of white space and made of characters of s. */
  lemma {:induction false} FieldsAreWords(s: string, i: nat)
    requires i < |Fields(s)|
    ensures NoSpace(Fields(s)[i]) && forall c :: c in Fields(s)[i] ==> c in s
    decreases |s|
  {
    if IsSpace(s[0]) {
      FieldsAreWords(s[1..], i);
    } else {
      var k := 1 + WordLength(s[1..]);
      WordIsWord(s[1..]);
      if i > 0 {
        FieldsAreWords(s[k..], i - 1);
      }
    }
  }

  lemma {:induction false} WordIsWord(s: string)
    ensures NoSpace(s[..WordLength(s)])
  {
    if s != "" && !IsSpace(s[0]) {
      WordIsWord(s[1..]);
      assert s[..WordLength(s)] == [s[0]] + s[1..][..WordLength(s[1..])];
    }
  }

  lemma {:induction false} ContainsSkip(gap: string, s: string, sub: string)
    requires Spaces(gap) && sub != "" && NoSpace(sub)
    ensures Contains(gap + s, sub) <==> Contains(s, sub)
  {
    if gap == "" {
      assert gap + s == s;
    } else {
      ContainsSkip(gap[1..], s, sub);
      assert (gap + s)[1..] == gap[1..] + s;
      assert IsSpace((gap + s)[0]) && !IsSpace(sub[0]);
    }
  }

  /** A text without c cannot straddle a c. */
  lemma {:induction false} ContainsSplit(a: string, c: char, b: string, sub: string)
    requires sub != "" && c !in sub
    ensures Contains(a + ([c] + b), sub) <==> Contains(a, sub) || Contains(b, sub)
  {
    var s := a + ([c] + b);
    if a == "" {
      assert s == [c] + b;
      assert s[1..] == b && s[0] == c;
    } else {
      ContainsSplit(a[1..], c, b, sub);
      assert s[1..] == a[1..] + ([c] + b);
      assert s[|a|] == c;
      assert s[..|a|] == a;
      if |sub| > |a| {
        assert sub[|a|] != c;
      }
    }
  }

  lemma NotInEmpty(sub: string)
    requires sub != ""
    ensures !Contains("", sub)
  {
  }

  lemma {:induction false} ContainsTrim(s: string, c: char, sub: string)
    requires sub != "" && c !in sub
    ensures Contains(TrimRight(s, c), sub) <==> Contains(s, sub)
  {
    hide Contains;
    if s != "" && s[|s| - 1] == c {
      var a := s[..|s| - 1];
      ContainsTrim(a, c, sub);
      ContainsSplit(a, c, "", sub);
      NotInEmpty(sub);
      assert s == a + ([c] + "");
    }
  }

  /** A text without white space cannot straddle the end of a word. */
  lemma {:induction false} ContainsWord(w: string, s: string, sub: string)
    requires (s == "" || IsSpace(s[0])) && sub != "" && NoSpace(sub)
    ensures Contains(w + s, sub) <==> Contains(w, sub) || Contains(s, sub)
  {
    if w == "" {
      assert w + s == s;
    } else {
      ContainsWord(w[1..], s, sub);
      assert (w + s)[1..] == w[1..] + s;
      if |sub| > |w| && s != "" {
        assert IsSpace((w + s)[|w|]) && !IsSpace(sub[|w|]);
      }
      if HasPrefix(w + s, sub) && |sub| <= |w| {
        assert forall i :: 0 <= i < |sub| ==> sub[i] == (w + s)[i] == w[i];
      }
      if HasPrefix(w, sub) {
        assert forall i :: 0 <= i < |sub| ==> sub[i] == w[i] == (w + s)[i];
      }
    }
  }
}
