/**
 * Character classes and whitespace trimming over ASCII, standing in for
 * Python's str.isspace, str.isdigit and str.strip.
 */
module Text {

  /** Python's str.isspace on ASCII: the space and the control characters 9-13 and 28-31. */
  predicate IsSpace(c: char) {
    c == ' ' || 9 <= c as int <= 13 || 28 <= c as int <= 31
  }

  predicate AllSpace(s: string) {
    forall i :: 0 <= i < |s| ==> IsSpace(s[i])
  }

  predicate IsDigit(c: char) {
    '0' <= c <= '9'
  }

  /** Python's str.isdigit on ASCII: non-empty and made of decimal digits only. */
  predicate IsDigits(s: string) {
    |s| > 0 && forall i :: 0 <= i < |s| ==> IsDigit(s[i])
  }

  /** The number of whitespace characters s starts with. */
  function LeadingSpaces(s: string): (k: nat)
    ensures k <= |s|
    ensures forall n :: 0 <= n < k ==> IsSpace(s[n])
    ensures k < |s| ==> !IsSpace(s[k])
  {
    if |s| > 0 && IsSpace(s[0]) then
      var k := LeadingSpaces(s[1..]);
      assert forall n :: 1 <= n < k + 1 ==> s[n] == s[1..][n - 1];
      k + 1
    else
      0
  }

  /** The number of whitespace characters s ends with. */
  function TrailingSpaces(s: string): (k: nat)
    ensures k <= |s|
    ensures forall n :: |s| - k <= n < |s| ==> IsSpace(s[n])
    ensures k < |s| ==> !IsSpace(s[|s| - k - 1])
  {
    if |s| > 0 && IsSpace(s[|s| - 1]) then
      var k := TrailingSpaces(s[..|s| - 1]);
      assert forall n :: |s| - k - 1 <= n < |s| - 1 ==> s[n] == s[..|s| - 1][n];
      k + 1
    else
      0
  }

  /**
   * s splits at i and j into leading whitespace, a core s[i..j] that neither
   * starts nor ends with whitespace, and trailing whitespace.
   */
  ghost predicate Stripped(s: string, i: nat, j: nat) {
    && i <= j <= |s|
    && (forall n :: 0 <= n < i ==> IsSpace(s[n]))
    && (forall n :: j <= n < |s| ==> IsSpace(s[n]))
    && (i < j ==> !IsSpace(s[i]) && !IsSpace(s[j - 1]))
  }

  /**
   * Python's str.strip(): the core of s once its leading and trailing
   * whitespace are split off.
   */
  function Trim(s: string): (r: string)
    ensures r == [] <==> AllSpace(s)
    ensures r != [] ==> !IsSpace(r[0]) && !IsSpace(r[|r| - 1])
  {
    var i := LeadingSpaces(s);
    if i == |s| then
      []
    else
      var j := |s| - TrailingSpaces(s);
      assert i < j;
      s[i..j]
  }

  /** Trim returns the core of a split of s, the one after s's leading whitespace. */
  lemma TrimStripped(s: string)
    ensures Stripped(s, LeadingSpaces(s), LeadingSpaces(s) + |Trim(s)|)
    ensures Trim(s) == s[LeadingSpaces(s)..LeadingSpaces(s) + |Trim(s)|]
  {
  }

  /**
   * The split is unique: whatever core a split of s has, it is what Trim
   * returns.
   */
  lemma TrimUnique(s: string, i: nat, j: nat)
    requires Stripped(s, i, j)
    ensures Trim(s) == s[i..j]
  {
    TrimStripped(s);
    var k := LeadingSpaces(s);
    var m := k + |Trim(s)|;
    if i == j {
      assert k == m;
    } else {
      assert k == i && m == j;
    }
  }

  /** Stripping twice is stripping once. */
  lemma TrimIdempotent(s: string)
    ensures Trim(Trim(s)) == Trim(s)
  {
    var r := Trim(s);
    TrimUnique(r, 0, |r|);
    assert r[0..|r|] == r;
  }

  /** Whitespace added around a string does not change what it strips to. */
  lemma TrimIgnoresPadding(a: string, s: string, b: string)
    requires AllSpace(a) && AllSpace(b)
    ensures Trim(a + s + b) == Trim(s)
  {
    TrimStripped(s);
    var k := LeadingSpaces(s);
    var m := k + |Trim(s)|;
    if k == m {
      AllSpaceConcat(a, s, b);
    } else {
      var t := a + s + b;
      PaddedStripped(a, s, b, k, m);
      TrimUnique(t, |a| + k, |a| + m);
      SliceOfPadded(a, s, b, k, m);
    }
  }

  lemma SliceOfPadded(a: string, s: string, b: string, k: nat, m: nat)
    requires k <= m <= |s|
    ensures (a + s + b)[|a| + k..|a| + m] == s[k..m]
  {
    assert (a + s + b)[|a|..|a| + |s|] == s;
  }

  lemma AllSpaceConcat(a: string, s: string, b: string)
    requires AllSpace(a) && AllSpace(s) && AllSpace(b)
    ensures AllSpace(a + s + b)
  {
    var t := a + s + b;
    forall n | 0 <= n < |t| ensures IsSpace(t[n]) {
      if n < |a| { assert t[n] == a[n]; }
      else if n < |a| + |s| { assert t[n] == s[n - |a|]; }
      else { assert t[n] == b[n - |a| - |s|]; }
    }
  }

  /** A split of s, shifted past the padding a, is a split of a + s + b. */
  lemma PaddedStripped(a: string, s: string, b: string, k: nat, m: nat)
    requires AllSpace(a) && AllSpace(b) && Stripped(s, k, m)
    ensures Stripped(a + s + b, |a| + k, |a| + m)
  {
    var t := a + s + b;
    forall n | 0 <= n < |a| + k ensures IsSpace(t[n]) {
      if n < |a| { assert t[n] == a[n]; } else { assert t[n] == s[n - |a|]; }
    }
    forall n | |a| + m <= n < |t| ensures IsSpace(t[n]) {
      if n < |a| + |s| { assert t[n] == s[n - |a|]; } else { assert t[n] == b[n - |a| - |s|]; }
    }
    if k < m {
      assert t[|a| + k] == s[k] && t[|a| + m - 1] == s[m - 1];
    }
  }
}
