/** The string operations the program borrows from Rust's `str`: searching,
    replacing and trimming. */
module Strings {
  import opened Wrappers
  import opened Sequences

  predicate MatchesAt(s: string, p: string, i: nat) {
    i + |p| <= |s| && s[i..i + |p|] == p
  }

  ghost predicate Contains(s: string, p: string) {
    exists i: nat :: MatchesAt(s, p, i)
  }

  /** First occurrence of `p` at or after `i`, as an absolute position. */
  function FindFrom(s: string, p: string, i: nat): (r: Option<nat>)
    requires i <= |s|
    ensures r.Some? ==> i <= r.value && MatchesAt(s, p, r.value)
    ensures r.Some? ==> forall k: nat :: i <= k < r.value ==> !MatchesAt(s, p, k)
    ensures r.None? ==> forall k: nat :: i <= k ==> !MatchesAt(s, p, k)
    decreases |s| - i
  {
    if MatchesAt(s, p, i) then Some(i)
    else if i == |s| then None
    else FindFrom(s, p, i + 1)
  }

  function Find(s: string, p: string): (r: Option<nat>)
    ensures r.Some? ==> MatchesAt(s, p, r.value)
    ensures r.Some? ==> forall k: nat :: k < r.value ==> !MatchesAt(s, p, k)
    ensures r.Some? <==> Contains(s, p)
  {
    FindFrom(s, p, 0)
  }

  /** Last occurrence of `p` at or before `i`. */
  function RFindTo(s: string, p: string, i: nat): (r: Option<nat>)
    ensures r.Some? ==> r.value <= i && MatchesAt(s, p, r.value)
    ensures r.Some? ==> forall k: nat :: r.value < k <= i ==> !MatchesAt(s, p, k)
    ensures r.None? ==> forall k: nat :: k <= i ==> !MatchesAt(s, p, k)
  {
    if MatchesAt(s, p, i) then Some(i)
    else if i == 0 then None
    else RFindTo(s, p, i - 1)
  }

  function RFind(s: string, p: string): (r: Option<nat>)
    ensures r.Some? ==> MatchesAt(s, p, r.value)
    ensures r.Some? ==> forall k: nat :: r.value < k ==> !MatchesAt(s, p, k)
    ensures r.Some? <==> Contains(s, p)
  {
    RFindTo(s, p, |s|)
  }

  /** Replace every non-overlapping occurrence, left to right. */
  function Replace(s: string, p: string, r: string): string
    requires p != []
    decreases |s|
  {
    match Find(s, p)
    case None => s
    case Some(i) => s[..i] + r + Replace(s[i + |p|..], p, r)
  }

  /** The characters Rust treats as white space. */
  predicate IsSpace(c: char) {
    var v := c as int;
    || 0x09 <= v <= 0x0D || v == 0x20 || v == 0x85 || v == 0xA0 || v == 0x1680
    || 0x2000 <= v <= 0x200A || v == 0x2028 || v == 0x2029 || v == 0x202F || v == 0x205F || v == 0x3000
  }

  function TrimStart(s: string): (r: string)
    ensures |r| <= |s| && r == s[|s| - |r|..]
    ensures forall k :: 0 <= k < |s| - |r| ==> IsSpace(s[k])
    ensures r != [] ==> !IsSpace(r[0])
  {
    if s != [] && IsSpace(s[0]) then TrimStart(s[1..]) else s
  }

  function TrimEnd(s: string): (r: string)
    ensures r <= s
    ensures forall k :: |r| <= k < |s| ==> IsSpace(s[k])
    ensures r != [] ==> !IsSpace(r[|r| - 1])
  {
    if s != [] && IsSpace(s[|s| - 1]) then TrimEnd(s[..|s| - 1]) else s
  }

  function Trim(s: string): string {
    TrimEnd(TrimStart(s))
  }

  ghost predicate AllSpace(s: string) {
    forall k :: 0 <= k < |s| ==> IsSpace(s[k])
  }

  lemma TrimIsEmpty(s: string)
    ensures Trim(s) == [] <==> AllSpace(s)
  {
    var t := TrimStart(s);
    if t != [] {
      assert t[0] == s[|s| - |t|];
    }
  }

  lemma TrimEndKeepsStart(s: string)
    requires s != [] && !IsSpace(s[0])
    ensures TrimEnd(s) != [] && TrimEnd(s)[0] == s[0]
  {}

  lemma TrimmedStays(t: string)
    requires t == [] || (!IsSpace(t[0]) && !IsSpace(t[|t| - 1]))
    ensures Trim(t) == t
  {}

  lemma TrimTwice(s: string)
    ensures Trim(Trim(s)) == Trim(s)
  {
    if TrimStart(s) != [] {
      TrimEndKeepsStart(TrimStart(s));
    }
    TrimmedStays(Trim(s));
  }

  // ------------------------------------------------------ occurrences

  lemma MatchIn(s: string, p: string, i: nat)
    requires MatchesAt(s, p, i)
    ensures forall k :: 0 <= k < |p| ==> s[i + k] == p[k]
  {
    assert forall k :: 0 <= k < |p| ==> s[i..i + |p|][k] == p[k];
  }

  lemma MatchInSuffix(a: string, b: string, p: string, i: nat)
    ensures MatchesAt(a + b, p, |a| + i) <==> MatchesAt(b, p, i)
  {
    if i + |p| <= |b| {
      assert (a + b)[|a| + i..|a| + i + |p|] == b[i..i + |p|];
    }
  }

  lemma MatchInPrefix(a: string, b: string, p: string, i: nat)
    requires i + |p| <= |a|
    ensures MatchesAt(a + b, p, i) <==> MatchesAt(a, p, i)
  {
    assert (a + b)[i..i + |p|] == a[i..i + |p|];
  }

  lemma ContainedInConcat(a: string, b: string, p: string)
    ensures Contains(a, p) || Contains(b, p) ==> Contains(a + b, p)
  {
    if i: nat :| MatchesAt(a, p, i) {
      MatchInPrefix(a, b, p, i);
      assert MatchesAt(a + b, p, i);
    }
    if i: nat :| MatchesAt(b, p, i) {
      MatchInSuffix(a, b, p, i);
      assert MatchesAt(a + b, p, |a| + i);
    }
  }

  lemma ContainedInPrefix(s: string, r: string, p: string)
    requires r <= s && Contains(r, p)
    ensures Contains(s, p)
  {
    assert s == r + s[|r|..];
    ContainedInConcat(r, s[|r|..], p);
  }

  lemma ContainedInSuffix(s: string, k: nat, p: string)
    requires k <= |s| && Contains(s[k..], p)
    ensures Contains(s, p)
  {
    Split(s, k);
    ContainedInConcat(s[..k], s[k..], p);
  }

  /** A pattern without `c` cannot span an occurrence of `c`. */
  lemma SeparatedBy(a: string, c: char, b: string, p: string)
    requires c !in p && p != [] && Contains(a + [c] + b, p)
    ensures Contains(a, p) || Contains(b, p)
  {
    var s := a + [c] + b;
    var i: nat :| MatchesAt(s, p, i);
    MatchIn(s, p, i);
    assert s[|a|] == c;
    if i > |a| {
      assert s == (a + [c]) + b;
      MatchInSuffix(a + [c], b, p, i - |a| - 1);
    } else {
      assert s == a + ([c] + b);
      MatchInPrefix(a, [c] + b, p, i);
    }
  }

  // ------------------------------------------------------ first occurrences

  ghost predicate IsFirst(s: string, p: string, at: nat) {
    MatchesAt(s, p, at) && forall k: nat :: k < at ==> !MatchesAt(s, p, k)
  }

  lemma FirstAppended(text: string, after: string, p: string, at: nat)
    requires IsFirst(text, p, at)
    ensures IsFirst(text + after, p, at)
  {
    MatchInPrefix(text, after, p, at);
    forall k: nat | k < at
      ensures !MatchesAt(text + after, p, k)
    {
      MatchInPrefix(text, after, p, k);
    }
  }

  lemma FindIsFirst(s: string, p: string, at: nat)
    requires Find(s, p) == Some(at)
    ensures IsFirst(s, p, at)
  {}

  /** `at` is where a search from `lo` ends. */
  ghost predicate IsFirstFrom(s: string, p: string, lo: nat, at: nat) {
    lo <= at && MatchesAt(s, p, at) && forall k: nat :: lo <= k < at ==> !MatchesAt(s, p, k)
  }

  lemma FindFromIs(s: string, p: string, lo: nat, at: nat)
    requires IsFirstFrom(s, p, lo, at)
    ensures lo <= |s| && FindFrom(s, p, lo) == Some(at)
  {}

  lemma FirstFrom(before: string, rest: string, p: string, at: nat)
    requires IsFirst(rest, p, at)
    ensures IsFirstFrom(before + rest, p, |before|, |before| + at)
  {
    MatchInSuffix(before, rest, p, at);
    forall k: nat | |before| <= k < |before| + at
      ensures !MatchesAt(before + rest, p, k)
    {
      MatchInSuffix(before, rest, p, k - |before|);
    }
  }
}
