/** The JavaScript string operations the screens depend on: `trim`, `toLowerCase`,
    `startsWith`, `endsWith` and `includes`. */
module JsString {

  /** ECMAScript WhiteSpace and LineTerminator code points: what `trim` and `parseInt` skip. */
  predicate IsWhite(c: char) {
    || c == '\t' || c == '\n' || c == '\U{B}' || c == '\U{C}' || c == '\r' || c == ' '
    || c == '\U{A0}' || c == '\U{1680}' || ('\U{2000}' <= c <= '\U{200A}')
    || c == '\U{2028}' || c == '\U{2029}' || c == '\U{202F}' || c == '\U{205F}'
    || c == '\U{3000}' || c == '\U{FEFF}'
  }

  /** Drops leading white space. */
  function TrimStart(s: string): string {
    if s != [] && IsWhite(s[0]) then TrimStart(s[1..]) else s
  }

  /** `TrimStart` drops a prefix of white space and stops at the first other character. */
  lemma {:induction false} TrimStartDropsWhitePrefix(s: string)
    ensures |TrimStart(s)| <= |s| && TrimStart(s) == s[|s| - |TrimStart(s)|..]
    ensures forall i :: 0 <= i < |s| - |TrimStart(s)| ==> IsWhite(s[i])
    ensures TrimStart(s) == [] || !IsWhite(TrimStart(s)[0])
    decreases |s|
  {
    if s != [] && IsWhite(s[0]) {
      TrimStartDropsWhitePrefix(s[1..]);
      var r := TrimStart(s);
      assert r == TrimStart(s[1..]);
      assert s[1..][|s| - 1 - |r|..] == s[|s| - |r|..];
      forall i | 0 <= i < |s| - |r|
        ensures IsWhite(s[i])
      {
        if i > 0 {
          assert s[i] == s[1..][i - 1];
        }
      }
    }
  }

  /** Drops trailing white space. */
  function TrimEnd(s: string): string {
    if s != [] && IsWhite(s[|s| - 1]) then TrimEnd(s[..|s| - 1]) else s
  }

  /** `TrimEnd` drops a suffix of white space and stops at the last other character. */
  lemma {:induction false} TrimEndDropsWhiteSuffix(s: string)
    ensures |TrimEnd(s)| <= |s| && TrimEnd(s) == s[..|TrimEnd(s)|]
    ensures forall i :: |TrimEnd(s)| <= i < |s| ==> IsWhite(s[i])
    ensures TrimEnd(s) == [] || !IsWhite(TrimEnd(s)[|TrimEnd(s)| - 1])
    decreases |s|
  {
    if s != [] && IsWhite(s[|s| - 1]) {
      var init := s[..|s| - 1];
      TrimEndDropsWhiteSuffix(init);
      var r := TrimEnd(s);
      assert r == TrimEnd(init);
      assert init[..|r|] == s[..|r|];
      forall i | |r| <= i < |s|
        ensures IsWhite(s[i])
      {
        if i < |s| - 1 {
          assert s[i] == init[i];
        }
      }
    }
  }

  /** `t` occurs in `s` starting at index `i`. */
  predicate OccursAt(s: string, t: string, i: int) {
    0 <= i <= |s| - |t| && s[i..i + |t|] == t
  }

  /** `s.trim()`. */
  function Trim(s: string): string {
    TrimEnd(TrimStart(s))
  }

  /** `s.trim()` is the slice of `s` between its leading and its trailing white space, and it
      neither starts nor ends with white space. */
  lemma TrimIsInnerSlice(s: string)
    ensures exists a :: (OccursAt(s, Trim(s), a)
      && (forall i :: 0 <= i < a ==> IsWhite(s[i]))
      && (forall i :: a + |Trim(s)| <= i < |s| ==> IsWhite(s[i])))
    ensures Trim(s) == [] || (!IsWhite(Trim(s)[0]) && !IsWhite(Trim(s)[|Trim(s)| - 1]))
  {
    var t := TrimStart(s);
    var r := TrimEnd(t);
    assert r == Trim(s);
    TrimStartDropsWhitePrefix(s);
    TrimEndDropsWhiteSuffix(t);
    InnerSlice(s, t, r);
    if r != [] {
      assert r[0] == t[0];
    }
  }

  /** A prefix `r` of a suffix `t` of `s` is a slice of `s`, and what follows it in `t`
      follows it in `s`. */
  lemma InnerSlice(s: string, t: string, r: string)
    requires |t| <= |s| && t == s[|s| - |t|..]
    requires |r| <= |t| && r == t[..|r|]
    requires forall i :: |r| <= i < |t| ==> IsWhite(t[i])
    ensures OccursAt(s, r, |s| - |t|)
    ensures forall i :: |s| - |t| + |r| <= i < |s| ==> IsWhite(s[i])
  {
    var a := |s| - |t|;
    assert s[a..][..|r|] == s[a..a + |r|];
    forall i | a + |r| <= i < |s|
      ensures IsWhite(s[i])
    {
      assert s[i] == t[i - a];
    }
  }

  /** `!s.trim()`: the string holds nothing but white space. */
  predicate IsBlank(s: string) {
    Trim(s) == ""
  }

  lemma {:induction false} BlankIffAllWhite(s: string)
    ensures IsBlank(s) <==> forall i :: 0 <= i < |s| ==> IsWhite(s[i])
  {
    var t := TrimStart(s);
    TrimStartDropsWhitePrefix(s);
    TrimEndDropsWhiteSuffix(t);
    if t == [] {
      assert TrimEnd(t) == [];
    } else {
      assert !IsWhite(t[0]);
      assert !IsWhite(s[|s| - |t|]);
    }
  }

  /** ASCII case mapping of one character. */
  function LowerChar(c: char): char {
    if 'A' <= c <= 'Z' then (c as int - 'A' as int + 'a' as int) as char else c
  }

  /** `s.toLowerCase()`, restricted to the ASCII letters. */
  function ToLower(s: string): (r: string)
    ensures |r| == |s|
  {
    seq(|s|, i requires 0 <= i < |s| => LowerChar(s[i]))
  }

  /** `s.startsWith(p)`. */
  predicate StartsWith(s: string, p: string) {
    |p| <= |s| && s[..|p|] == p
  }

  /** `s.endsWith(t)`. */
  predicate EndsWith(s: string, t: string) {
    |t| <= |s| && s[|s| - |t|..] == t
  }

  /** `s.includes(t)`, by scanning the start positions of `s` from left to right. */
  predicate Contains(s: string, t: string)
    decreases |s|
  {
    StartsWith(s, t) || (s != [] && Contains(s[1..], t))
  }

  /** `includes` finds `t` exactly when it occurs at some position of `s`. */
  lemma {:induction false} ContainsIff(s: string, t: string)
    ensures Contains(s, t) <==> exists i :: OccursAt(s, t, i)
    decreases |s|
  {
    if StartsWith(s, t) {
      assert OccursAt(s, t, 0);
    } else if s == [] {
    } else {
      ContainsIff(s[1..], t);
      if exists i :: OccursAt(s, t, i) {
        var i :| OccursAt(s, t, i);
        assert i != 0;
        assert s[1..][i - 1..i - 1 + |t|] == t;
        assert OccursAt(s[1..], t, i - 1);
      }
      if Contains(s[1..], t) {
        var i :| OccursAt(s[1..], t, i);
        assert s[i + 1..i + 1 + |t|] == t;
        assert OccursAt(s, t, i + 1);
      }
    }
  }

  /** `s.length`: the number of UTF-16 code units, where a character outside the Basic
      Multilingual Plane takes two. */
  function Utf16Length(s: string): (n: nat)
    ensures |s| <= n <= 2 * |s|
    ensures n == |s| <==> forall i :: 0 <= i < |s| ==> s[i] as int <= 0xFFFF
  {
    if s == [] then 0
    else
      var rest := Utf16Length(s[1..]);
      assert forall i :: 1 <= i < |s| ==> s[i] == s[1..][i - 1];
      (if s[0] as int > 0xFFFF then 2 else 1) + rest
  }
}
