/** The two string primitives the user-interface handlers rely on, with JavaScript's meaning:
    `String.prototype.trim` (which strips the WhiteSpace and LineTerminator code points of
    the ECMAScript language, on both ends) and `String.prototype.startsWith`. */
module Text {

  /** The ECMAScript WhiteSpace and LineTerminator code points: the characters `trim`
      removes. */
  const WHITESPACE: set<char> := {
    '\t', '\n', '\U{000B}', '\U{000C}', '\r', ' ', '\U{00A0}', '\U{1680}',
    '\U{2000}', '\U{2001}', '\U{2002}', '\U{2003}', '\U{2004}', '\U{2005}',
    '\U{2006}', '\U{2007}', '\U{2008}', '\U{2009}', '\U{200A}',
    '\U{2028}', '\U{2029}', '\U{202F}', '\U{205F}', '\U{3000}', '\U{FEFF}'
  }

  predicate IsWhitespace(c: char) {
    c in WHITESPACE
  }

  /** Every character of `s` is whitespace: what `!s.trim()` tests. */
  predicate IsBlank(s: string) {
    forall i :: 0 <= i < |s| ==> IsWhitespace(s[i])
  }

  /** The first index at or after `k` that does not hold whitespace (`|s|` if none). */
  function SkipForward(s: string, k: nat): (n: nat)
    requires k <= |s|
    ensures k <= n <= |s|
    ensures forall i :: k <= i < n ==> IsWhitespace(s[i])
    ensures n == |s| || !IsWhitespace(s[n])
    decreases |s| - k
  {
    if k < |s| && IsWhitespace(s[k]) then SkipForward(s, k + 1) else k
  }

  /** Scanning forward is unaffected by one more character in front. */
  lemma {:induction false} SkipShift(c: char, s: string, k: nat)
    requires k <= |s|
    ensures SkipForward([c] + s, k + 1) == SkipForward(s, k) + 1
    decreases |s| - k
  {
    assert ([c] + s)[k + 1..] == s[k..];
    if k < |s| {
      assert ([c] + s)[k + 1] == s[k];
      if IsWhitespace(s[k]) { SkipShift(c, s, k + 1); }
    }
  }

  /** The end of the whitespace run that finishes at `k`, counting backwards. */
  function SkipBackward(s: string, k: nat): (n: nat)
    requires k <= |s|
    ensures n <= k
    ensures forall i :: n <= i < k ==> IsWhitespace(s[i])
    ensures n == 0 || !IsWhitespace(s[n - 1])
  {
    if k > 0 && IsWhitespace(s[k - 1]) then SkipBackward(s, k - 1) else k
  }

  /** `s` with its leading whitespace removed: a suffix of `s` whose dropped part is blank. */
  function TrimStart(s: string): (r: string)
    ensures |r| <= |s| && r == s[|s| - |r|..]
    ensures IsBlank(s[..|s| - |r|])
    ensures r == [] || !IsWhitespace(r[0])
  {
    s[SkipForward(s, 0)..]
  }

  /** `s` with its trailing whitespace removed: a prefix of `s` whose dropped part is blank. */
  function TrimEnd(s: string): (r: string)
    ensures |r| <= |s| && r == s[..|r|]
    ensures IsBlank(s[|r|..])
    ensures r == [] || !IsWhitespace(r[|r| - 1])
  {
    s[..SkipBackward(s, |s|)]
  }

  /** `s.trim()`: `s` without its leading and trailing whitespace; what is left is no
      longer than `s`, and starts and ends with a non-whitespace character. */
  function Trim(s: string): (r: string)
    ensures |r| <= |s|
    ensures r == [] || (!IsWhitespace(r[0]) && !IsWhitespace(r[|r| - 1]))
  {
    TrimEnd(TrimStart(s))
  }

  /** `s.trim()` is the middle slice of `s` between two blank ends. */
  lemma TrimIsMiddleSlice(s: string)
    ensures exists i :: 0 <= i <= |s| - |Trim(s)| && Trim(s) == s[i..i + |Trim(s)|]
                        && IsBlank(s[..i]) && IsBlank(s[i + |Trim(s)|..])
  {
    var t := TrimStart(s);
    var r := TrimEnd(t);
    var i := |s| - |t|;
    assert r == s[i..i + |r|];
    assert s[i + |r|..] == t[|r|..];
    assert IsBlank(s[..i]) && IsBlank(s[i + |r|..]);
  }

  /** `s.startsWith(prefix)`. */
  predicate StartsWith(s: string, prefix: string): (b: bool)
    ensures b <==> |prefix| <= |s| && s == prefix + s[|prefix|..]
  {
    |prefix| <= |s| && s[..|prefix|] == prefix
  }

  /** `s.trim()` is empty exactly when `s` is blank (the empty string included). */
  lemma TrimEmptyIffBlank(s: string)
    ensures Trim(s) == [] <==> IsBlank(s)
  {
    var t := TrimStart(s);
    var k := |s| - |t|;
    if TrimEnd(t) == [] {
      assert IsBlank(t) by { assert t[0..] == t; }
      assert t == [];
      assert s[..k] == s;
    } else {
      assert t != [] && !IsWhitespace(t[0]);
      assert s[k] == t[0];
    }
  }

  /** Trimming a trimmed string changes nothing. */
  lemma TrimIdempotent(s: string)
    ensures Trim(Trim(s)) == Trim(s)
  {
    var r := Trim(s);
    if r != [] {
      assert TrimStart(r) == r;
      assert TrimEnd(r) == r;
    }
  }

  /** A prefix with no whitespace in it survives trimming: a string that starts with it
      has no leading whitespace, and the trailing whitespace lies after it. */
  lemma {:induction false} TrimKeepsSolidPrefix(s: string, prefix: string)
    requires prefix != [] && StartsWith(s, prefix)
    requires forall k :: 0 <= k < |prefix| ==> !IsWhitespace(prefix[k])
    ensures Trim(s) == TrimEnd(s)
    ensures StartsWith(Trim(s), prefix)
  {
    assert s[0] == prefix[0];
    assert TrimStart(s) == s;
    var r := TrimEnd(s);
    var last := |prefix| - 1;
    assert !IsWhitespace(s[last]) by { assert s[last] == s[..|prefix|][last]; }
    forall k | |r| <= k < |s| ensures IsWhitespace(s[k]) {
      assert s[k] == s[|r|..][k - |r|];
    }
    assert r[..|prefix|] == s[..|prefix|];
  }
}
