/**
 * The string operations the board applies to task text: JavaScript's
 * `String.prototype.trim` and `slice(0, 120)`.
 */
module Text {
  /** The longest text a task keeps. */
  const MaxTextLength: nat := 120

  /**
   * The characters `trim` removes: ECMAScript WhiteSpace (tab, vertical tab,
   * form feed, space, no-break space, byte order mark and the Zs category) and
   * LineTerminator (line feed, carriage return, line and paragraph separators).
   */
  predicate IsSpace(c: char) {
    c == '\t' || c == '\n' || c == '\U{000B}' || c == '\U{000C}' || c == '\r' || c == ' '
    || c == '\U{00A0}' || c == '\U{1680}' || ('\U{2000}' <= c <= '\U{200A}')
    || c == '\U{2028}' || c == '\U{2029}' || c == '\U{202F}' || c == '\U{205F}'
    || c == '\U{3000}' || c == '\U{FEFF}'
  }

  predicate AllSpace(s: string) {
    forall i :: 0 <= i < |s| ==> IsSpace(s[i])
  }

  lemma AllSpaceCons(c: char, a: string)
    requires IsSpace(c) && AllSpace(a)
    ensures AllSpace([c] + a)
  {
    assert forall i :: 1 <= i < |a| + 1 ==> ([c] + a)[i] == a[i - 1];
  }

  lemma AllSpaceSnoc(a: string, c: char)
    requires AllSpace(a) && IsSpace(c)
    ensures AllSpace(a + [c])
  {
    assert forall i :: 0 <= i < |a| ==> (a + [c])[i] == a[i];
  }

  /** `s` with its leading whitespace removed. */
  function TrimStart(s: string): (r: string)
    ensures |r| <= |s| && r == s[|s| - |r|..]
    ensures r == [] || !IsSpace(r[0])
    ensures AllSpace(s[..|s| - |r|])
  {
    if |s| > 0 && IsSpace(s[0]) then
      var r := TrimStart(s[1..]);
      assert s[..|s| - |r|] == [s[0]] + s[1..][..|s| - 1 - |r|];
      AllSpaceCons(s[0], s[1..][..|s| - 1 - |r|]);
      r
    else
      assert s[..0] == [];
      s
  }

  /** `s` with its trailing whitespace removed. */
  function TrimEnd(s: string): (r: string)
    ensures |r| <= |s| && r == s[..|r|]
    ensures r == [] || !IsSpace(r[|r| - 1])
    ensures AllSpace(s[|r|..])
  {
    if |s| > 0 && IsSpace(s[|s| - 1]) then
      var r := TrimEnd(s[..|s| - 1]);
      assert s[|r|..] == s[..|s| - 1][|r|..] + [s[|s| - 1]];
      AllSpaceSnoc(s[..|s| - 1][|r|..], s[|s| - 1]);
      r
    else
      assert s[|s|..] == [];
      s
  }

  /** `s.trim()`. */
  function Trim(s: string): (r: string)
    ensures |r| <= |s|
    ensures r == [] || (!IsSpace(r[0]) && !IsSpace(r[|r| - 1]))
  {
    TrimEnd(TrimStart(s))
  }

  /** `r` is the piece of `s` starting at `i`, with only whitespace before and after it. */
  predicate CoreAt(s: string, r: string, i: int) {
    0 <= i <= |s| - |r| && r == s[i..i + |r|] && AllSpace(s[..i]) && AllSpace(s[i + |r|..])
  }

  /**
   * The trimmed text is the stretch of `s` left after dropping whitespace at
   * both ends: a contiguous piece of `s` that neither starts nor ends with
   * whitespace, with only whitespace outside it.
   */
  lemma TrimSpec(s: string)
    ensures exists i :: CoreAt(s, Trim(s), i)
    ensures Trim(s) == [] || (!IsSpace(Trim(s)[0]) && !IsSpace(Trim(s)[|Trim(s)| - 1]))
  {
    var a := TrimStart(s);
    var r := TrimEnd(a);
    var i := |s| - |a|;
    assert r == s[i..i + |r|] by {
      assert a == s[i..];
      assert r == a[..|r|];
    }
    assert AllSpace(s[i + |r|..]) by {
      assert s[i + |r|..] == a[|r|..];
    }
    assert AllSpace(s[..i]);
    if r != [] {
      assert r[0] == a[0];
    }
    assert Trim(s) == r;
    assert CoreAt(s, r, i);
  }

  /** `text.trim()` is empty exactly when the text consists of whitespace only. */
  lemma BlankIffAllSpace(s: string)
    ensures Trim(s) == [] <==> AllSpace(s)
  {
    var a := TrimStart(s);
    if Trim(s) == [] {
      assert a[0..] == a;
      assert a == [];
      assert s[..|s|] == s;
    } else {
      TrimSpec(s);
    }
  }

  /** `s.slice(0, 120)`: the first 120 characters, or all of `s` if it is shorter. */
  function Clamp(s: string): (r: string)
    ensures |r| <= MaxTextLength && |r| <= |s|
    ensures r == s[..|r|]
    ensures |r| == if |s| < MaxTextLength then |s| else MaxTextLength
  {
    if |s| <= MaxTextLength then s else s[..MaxTextLength]
  }

  /** Clamping text that already fits changes nothing, so clamping twice is clamping once. */
  lemma ClampIdempotent(s: string)
    ensures Clamp(Clamp(s)) == Clamp(s)
    ensures |s| <= MaxTextLength ==> Clamp(s) == s
  {
  }
}
