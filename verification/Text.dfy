/** Trimming of user input, as the service's language defines white space. */
module Text {
  predicate IsSpace(c: char) {
    var n := c as int;
    || 0x09 <= n <= 0x0D || n == 0x20 || n == 0x85 || n == 0xA0 || n == 0x1680
    || 0x2000 <= n <= 0x200A || n == 0x2028 || n == 0x2029 || n == 0x202F || n == 0x205F || n == 0x3000
  }

  function TrimStart(s: string): (r: string)
    ensures r == [] || !IsSpace(r[0])
    ensures |r| <= |s| && r == s[|s| - |r|..]
  {
    if s != [] && IsSpace(s[0]) then TrimStart(s[1..]) else s
  }

  function TrimEnd(s: string): (r: string)
    ensures r == [] || !IsSpace(r[|r| - 1])
    ensures |r| <= |s| && r == s[..|r|]
  {
    if s != [] && IsSpace(s[|s| - 1]) then TrimEnd(s[..|s| - 1]) else s
  }

  function Trim(s: string): (r: string)
    ensures r == [] || (!IsSpace(r[0]) && !IsSpace(r[|r| - 1]))
  {
    TrimEnd(TrimStart(s))
  }

  /** Trimmed text is left alone. */
  lemma TrimIsStable(s: string)
    ensures Trim(Trim(s)) == Trim(s)
  {
    var t := Trim(s);
    assert TrimStart(t) == t && TrimEnd(t) == t;
  }

  predicate AllSpace(s: string) {
    forall k :: 0 <= k < |s| ==> IsSpace(s[k])
  }

  predicate IsCut(s: string, r: string, i: int, j: int) {
    0 <= i <= j <= |s| && r == s[i..j] && AllSpace(s[..i]) && AllSpace(s[j..])
  }

  /** Trimming takes white space off both ends, all of it, and nothing else. */
  ghost predicate IsTrimmed(s: string, r: string) {
    && (r == [] || (!IsSpace(r[0]) && !IsSpace(r[|r| - 1])))
    && exists i, j :: IsCut(s, r, i, j)
  }

  lemma {:induction false} StartIsSpace(s: string)
    ensures AllSpace(s[..|s| - |TrimStart(s)|])
  {
    if s != [] && IsSpace(s[0]) {
      StartIsSpace(s[1..]);
      var n := |s| - |TrimStart(s)|;
      assert forall k :: 0 < k < n ==> s[k] == s[1..][..n - 1][k - 1];
    }
  }

  lemma {:induction false} EndIsSpace(s: string)
    ensures AllSpace(s[|TrimEnd(s)|..])
  {
    if s != [] && IsSpace(s[|s| - 1]) {
      var rest, n := s[..|s| - 1], |TrimEnd(s)|;
      EndIsSpace(rest);
      assert forall k :: n <= k < |s| - 1 ==> s[k] == rest[n..][k - n];
    }
  }

  lemma TrimCuts(s: string)
    ensures IsTrimmed(s, Trim(s))
  {
    var t := TrimStart(s);
    var i := |s| - |t|;
    var j := i + |Trim(s)|;
    StartIsSpace(s);
    EndIsSpace(t);
    assert Trim(s) == s[i..j] && s[j..] == t[|Trim(s)|..];
    assert IsCut(s, Trim(s), i, j);
  }

  /** There is only one such text. */
  lemma TrimmedIsUnique(s: string, q: string, r: string)
    requires IsTrimmed(s, q) && IsTrimmed(s, r)
    ensures q == r
  {
    hide IsSpace;
    var i, j :| IsCut(s, q, i, j);
    var k, l :| IsCut(s, r, k, l);
    hide AllSpace;
    if i < j {
      CutEnds(s, q, i, j);
      if k < l { CutEnds(s, r, k, l); }
      SameEnds(s, i, j, k, l);
    } else if k < l {
      CutEnds(s, r, k, l);
      SameEnds(s, k, l, i, j);
    }
  }

  lemma CutEnds(s: string, r: string, i: int, j: int)
    requires IsCut(s, r, i, j) && i < j
    ensures r != [] && r[0] == s[i] && r[|r| - 1] == s[j - 1]
  {
  }

  lemma TrimIff(s: string, r: string)
    ensures IsTrimmed(s, r) <==> r == Trim(s)
  {
    hide IsTrimmed, Trim;
    TrimCuts(s);
    if IsTrimmed(s, r) { TrimmedIsUnique(s, r, Trim(s)); }
  }

  /** A text between white space lies within any other cut of that kind. */
  lemma SameEnds(s: string, i: nat, j: nat, k: nat, l: nat)
    requires i < j <= |s| && k <= l <= |s| && !IsSpace(s[i]) && !IsSpace(s[j - 1])
    requires AllSpace(s[..i]) && AllSpace(s[j..]) && AllSpace(s[..k]) && AllSpace(s[l..])
    requires k < l ==> !IsSpace(s[k]) && !IsSpace(s[l - 1])
    ensures i == k && j == l
  {
    hide AllSpace, IsSpace;
    NotBefore(s, k, i);
    NotAfter(s, l, j - 1);
    if k < l {
      NotBefore(s, i, k);
      NotAfter(s, j, l - 1);
    }
  }

  lemma NotBefore(s: string, cut: nat, k: nat)
    requires cut <= |s| && k < |s| && AllSpace(s[..cut])
    ensures !IsSpace(s[k]) ==> cut <= k
  {
    if k < cut { assert s[..cut][k] == s[k]; }
  }

  lemma NotAfter(s: string, cut: nat, k: nat)
    requires cut <= |s| && k < |s| && AllSpace(s[cut..])
    ensures !IsSpace(s[k]) ==> k < cut
  {
    if k >= cut { assert s[cut..][k - cut] == s[k]; }
  }
}
