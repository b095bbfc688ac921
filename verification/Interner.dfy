/** The arena string interner: one byte arena, a table of (start, length) pairs
    held in 32 and 16 bits, and hash buckets of ids. */
module Interner {
  import opened Wrappers
  import opened Sequences
  import opened Octets

  const U16: nat := 0x1_0000
  const U32: nat := 0x1_0000_0000

  /** The three parts of an interner, as values. */
  datatype Parts = Parts(arena: Bytes, offsets: seq<(nat, nat)>, lookup: map<nat, seq<nat>>)

  const EMPTY: Parts := Parts([], [], map[])

  // ------------------------------------------------------ reading

  /** The slice of the arena an entry names, if it is in range. */
  function Slice(arena: Bytes, entry: (nat, nat)): Option<Bytes> {
    if entry.0 + entry.1 <= |arena| then Some(arena[entry.0..entry.0 + entry.1]) else None
  }

  function GetBytes(p: Parts, id: nat): Option<Bytes> {
    if id < |p.offsets| then Slice(p.arena, p.offsets[id]) else None
  }

  function Bucket(p: Parts, hash: nat): seq<nat> {
    if hash in p.lookup then p.lookup[hash] else []
  }

  /** First id of the bucket whose bytes are `s`. */
  function FindIn(p: Parts, ids: seq<nat>, s: Bytes): (r: Option<nat>)
    ensures r.Some? ==> r.value in ids && GetBytes(p, r.value) == Some(s)
    ensures r.None? ==> forall id :: id in ids ==> GetBytes(p, id) != Some(s)
  {
    if ids == [] then None
    else if GetBytes(p, ids[0]) == Some(s) then Some(ids[0])
    else FindIn(p, ids[1..], s)
  }

  function GetId(p: Parts, hash: Bytes -> nat, s: Bytes): Option<nat> {
    FindIn(p, Bucket(p, hash(s)), s)
  }

  // ------------------------------------------------------ interning

  /** Append `s`, with the start, length and id cut to their field widths. */
  function Appended(p: Parts, hash: Bytes -> nat, s: Bytes): (Parts, nat) {
    var id := |p.offsets| % U32;
    (Parts(p.arena + s,
           p.offsets + [(|p.arena| % U32, |s| % U16)],
           p.lookup[hash(s) := Bucket(p, hash(s)) + [id]]),
     id)
  }

  function Intern(p: Parts, hash: Bytes -> nat, s: Bytes): (Parts, nat) {
    match GetId(p, hash, s)
    case Some(id) => (p, id)
    case None => Appended(p, hash, s)
  }

  /** The lookup table that the first `n` entries give. */
  function Rebuilt(arena: Bytes, offsets: seq<(nat, nat)>, hash: Bytes -> nat, n: nat): map<nat, seq<nat>>
    requires n <= |offsets|
  {
    if n == 0 then map[]
    else
      var before := Rebuilt(arena, offsets, hash, n - 1);
      match Slice(arena, offsets[n - 1])
      case None => before
      case Some(bytes) =>
        var h := hash(bytes);
        before[h := (if h in before then before[h] else []) + [(n - 1) % U32]]
  }

  // ------------------------------------------------------ invariant

  /** The strings in id order: what an interner stands for. */
  ghost predicate Holds(p: Parts, hash: Bytes -> nat, strings: seq<Bytes>) {
    && |p.offsets| == |strings| <= U32
    && (forall id :: 0 <= id < |strings| ==> GetBytes(p, id) == Some(strings[id]))
    && (forall i, j :: 0 <= i < j < |strings| ==> strings[i] != strings[j])
    && p.lookup == Rebuilt(p.arena, p.offsets, hash, |p.offsets|)
  }

  /** What the field widths allow for one more string. */
  predicate Fits(p: Parts, s: Bytes) {
    |s| < U16 && |p.arena| < U32 && |p.offsets| < U32
  }

  /** The bucket of a hash lists exactly the ids whose bytes have that hash. */
  lemma {:induction false} BucketByHash(arena: Bytes, offsets: seq<(nat, nat)>, hash: Bytes -> nat, n: nat, h: nat, id: nat)
    requires n <= |offsets| <= U32
    ensures var table := Rebuilt(arena, offsets, hash, n);
            (h in table && id in table[h]) <==>
            id < n && Slice(arena, offsets[id]).Some? && hash(Slice(arena, offsets[id]).value) == h
  {
    if n > 0 {
      BucketByHash(arena, offsets, hash, n - 1, h, id);
      assert (n - 1) % U32 == n - 1;
    }
  }

  lemma InBucket(p: Parts, hash: Bytes -> nat, strings: seq<Bytes>, s: Bytes, id: nat)
    requires Holds(p, hash, strings)
    ensures id in Bucket(p, hash(s)) <==> id < |strings| && hash(strings[id]) == hash(s)
  {
    BucketByHash(p.arena, p.offsets, hash, |p.offsets|, hash(s), id);
  }

  /** Position of `s` among the strings. */
  function Position(strings: seq<Bytes>, s: Bytes): (r: Option<nat>)
    ensures r.Some? ==> r.value < |strings| && strings[r.value] == s
    ensures r.None? ==> s !in strings
  {
    if strings == [] then None
    else if strings[|strings| - 1] == s then Some(|strings| - 1)
    else Position(strings[..|strings| - 1], s)
  }

  /** Looking up through the hash buckets agrees with a linear scan. */
  lemma LookupIsLinearScan(p: Parts, hash: Bytes -> nat, strings: seq<Bytes>, s: Bytes)
    requires Holds(p, hash, strings)
    ensures GetId(p, hash, s) == Position(strings, s)
  {
    var found := GetId(p, hash, s);
    if found.Some? {
      InBucket(p, hash, strings, s, found.value);
      assert strings[found.value] == s;
    } else if Position(strings, s).Some? {
      var id := Position(strings, s).value;
      InBucket(p, hash, strings, s, id);
    }
  }

  // ------------------------------------------------------ growth

  lemma SliceGrows(arena: Bytes, more: Bytes, entry: (nat, nat))
    requires Slice(arena, entry).Some?
    ensures Slice(arena + more, entry) == Slice(arena, entry)
  {
    var lo, hi := entry.0, entry.0 + entry.1;
    assert (arena + more)[lo..hi] == arena[lo..hi];
  }

  lemma {:induction false} RebuiltGrows(arena: Bytes, more: Bytes, offsets: seq<(nat, nat)>, last: (nat, nat),
                                        hash: Bytes -> nat, n: nat)
    requires n <= |offsets|
    requires forall k :: 0 <= k < n ==> Slice(arena, offsets[k]).Some?
    ensures Rebuilt(arena + more, offsets + [last], hash, n) == Rebuilt(arena, offsets, hash, n)
  {
    if n > 0 {
      RebuiltGrows(arena, more, offsets, last, hash, n - 1);
      SliceGrows(arena, more, offsets[n - 1]);
      assert (offsets + [last])[n - 1] == offsets[n - 1];
    }
  }

  /** The table after an append is the one its parts rebuild to. */
  lemma LookupAfter(p: Parts, hash: Bytes -> nat, s: Bytes)
    requires Fits(p, s) && p.lookup == Rebuilt(p.arena, p.offsets, hash, |p.offsets|)
    requires forall k :: 0 <= k < |p.offsets| ==> Slice(p.arena, p.offsets[k]).Some?
    ensures var q := Appended(p, hash, s).0; q.lookup == Rebuilt(q.arena, q.offsets, hash, |q.offsets|)
  {
    var last := (|p.arena|, |s|);
    RebuiltGrows(p.arena, s, p.offsets, last, hash, |p.offsets|);
    assert Slice(p.arena + s, last) == Some(s) by {
      assert (p.arena + s)[|p.arena|..|p.arena| + |s|] == s;
    }
    assert (p.offsets + [last])[|p.offsets|] == last;
    assert Appended(p, hash, s).0.offsets == p.offsets + [last];
  }

  /** Appending a new string that fits extends the strings by it. */
  lemma AppendedHolds(p: Parts, hash: Bytes -> nat, strings: seq<Bytes>, s: Bytes)
    requires Holds(p, hash, strings) && Fits(p, s) && s !in strings
    ensures var (q, id) := Appended(p, hash, s);
            id == |strings| && Holds(q, hash, strings + [s])
  {
    var q := Appended(p, hash, s).0;
    var all := strings + [s];
    assert Slice(q.arena, (|p.arena|, |s|)) == Some(s) by {
      assert (p.arena + s)[|p.arena|..|p.arena| + |s|] == s;
    }
    forall k | 0 <= k < |strings|
      ensures GetBytes(q, k) == Some(all[k]) && Slice(p.arena, p.offsets[k]).Some?
    {
      assert GetBytes(p, k) == Some(strings[k]);
      SliceGrows(p.arena, s, p.offsets[k]);
      assert q.offsets[k] == p.offsets[k];
    }
    assert q.offsets[|strings|] == (|p.arena|, |s|);
    LookupAfter(p, hash, s);
  }

  /** Interning refines an injective string-to-id map for any hash function:
      the id is where the string stands, known strings keep their ids, and the
      new one reads back. */
  lemma InternRefines(p: Parts, hash: Bytes -> nat, strings: seq<Bytes>, s: Bytes)
    requires Holds(p, hash, strings) && (s in strings || Fits(p, s))
    ensures var (q, id) := Intern(p, hash, s);
            var all := if s in strings then strings else strings + [s];
            && Holds(q, hash, all)
            && id < |all| && all[id] == s && GetBytes(q, id) == Some(s)
            && (forall k :: 0 <= k < |strings| ==> GetBytes(q, k) == GetBytes(p, k))
  {
    LookupIsLinearScan(p, hash, strings, s);
    if s !in strings {
      AppendedHolds(p, hash, strings, s);
      var (q, id) := Intern(p, hash, s);
      forall k | 0 <= k < |strings| ensures GetBytes(q, k) == GetBytes(p, k) {
        assert GetBytes(q, k) == Some((strings + [s])[k]);
      }
    }
  }

  /** A new string reads back exactly when its length fits in 16 bits. */
  lemma ReadsBackIff(p: Parts, hash: Bytes -> nat, strings: seq<Bytes>, s: Bytes)
    requires Holds(p, hash, strings) && s !in strings && |p.arena| < U32 && |p.offsets| < U32
    ensures var (q, id) := Intern(p, hash, s);
            GetBytes(q, id) == Some(s) <==> |s| < U16
  {
    LookupIsLinearScan(p, hash, strings, s);
    if |s| < U16 {
      ShortReadsBack(p, hash, strings, s);
    } else {
      LongIsCut(p, hash, s);
    }
  }

  lemma ShortReadsBack(p: Parts, hash: Bytes -> nat, strings: seq<Bytes>, s: Bytes)
    requires Holds(p, hash, strings) && Fits(p, s) && s !in strings
    ensures var (q, id) := Appended(p, hash, s); GetBytes(q, id) == Some(s)
  {
    AppendedHolds(p, hash, strings, s);
    SnocLast(strings, s);
  }

  /** The length is cut to 16 bits, so fewer bytes are read back. */
  lemma LongIsCut(p: Parts, hash: Bytes -> nat, s: Bytes)
    requires |s| >= U16 && |p.arena| < U32 && |p.offsets| < U32
    ensures var (q, id) := Appended(p, hash, s); GetBytes(q, id) != Some(s)
  {
    var (q, id) := Appended(p, hash, s);
    assert q.offsets[id] == (|p.arena|, |s| % U16);
    assert |s| % U16 < U16;
  }

  /** Interning a string twice in a row gives one id exactly when it fits. */
  lemma InternTwiceIff(p: Parts, hash: Bytes -> nat, strings: seq<Bytes>, s: Bytes)
    requires Holds(p, hash, strings) && s !in strings && |p.arena| < U32 && |p.offsets| + 1 < U32
    ensures var (q, id) := Intern(p, hash, s);
            Intern(q, hash, s).1 == id <==> |s| < U16
  {
    LookupIsLinearScan(p, hash, strings, s);
    ReadsBackIff(p, hash, strings, s);
    var (q, id) := Intern(p, hash, s);
    assert q == Appended(p, hash, s).0;
    if |s| < U16 {
      AppendedHolds(p, hash, strings, s);
      LookupIsLinearScan(q, hash, strings + [s], s);
    } else {
      forall k | k in Bucket(q, hash(s)) ensures GetBytes(q, k) != Some(s) {
        OversizedNotFound(p, hash, strings, s, k);
      }
      assert GetId(q, hash, s).None?;
    }
  }

  lemma OversizedNotFound(p: Parts, hash: Bytes -> nat, strings: seq<Bytes>, s: Bytes, k: nat)
    requires Holds(p, hash, strings) && s !in strings && |p.arena| < U32 && |p.offsets| < U32
    requires |s| >= U16 && k in Bucket(Appended(p, hash, s).0, hash(s))
    ensures GetBytes(Appended(p, hash, s).0, k) != Some(s)
  {
    var q := Appended(p, hash, s).0;
    InBucket(p, hash, strings, s, k);
    if k < |strings| {
      assert GetBytes(p, k) == Some(strings[k]);
      SliceGrows(p.arena, s, p.offsets[k]);
      assert q.offsets[k] == p.offsets[k];
    } else {
      assert k == |p.offsets| && q.offsets[k] == (|p.arena|, |s| % U16);
    }
  }

  /** An interner made from serialized parts, its table rebuilt. */
  function FromSerialized(arena: Bytes, offsets: seq<(nat, nat)>, hash: Bytes -> nat): Parts {
    Parts(arena, offsets, Rebuilt(arena, offsets, hash, |offsets|))
  }

  // ------------------------------------------------------ the interner object

  class StringInterner {
    const hash: Bytes -> nat
    var arena: Bytes
    var lookup: map<nat, seq<nat>>
    var offsets: seq<(nat, nat)>

    constructor (hash: Bytes -> nat)
      ensures this.hash == hash && State() == EMPTY
    {
      this.hash := hash;
      arena, lookup, offsets := [], map[], [];
    }

    function State(): Parts
      reads this
    {
      Parts(arena, offsets, lookup)
    }

    /** Scan one bucket for the bytes `s`. */
    method ScanBucket(ids: seq<nat>, s: Bytes) returns (r: Option<nat>)
      ensures r == FindIn(State(), ids, s)
    {
      var k := 0;
      while k < |ids|
        invariant k <= |ids|
        invariant FindIn(State(), ids[k..], s) == FindIn(State(), ids, s)
      {
        assert ids[k..][1..] == ids[k + 1..];
        if GetBytes(State(), ids[k]) == Some(s) {
          return Some(ids[k]);
        }
        k := k + 1;
      }
      r := None;
    }

    method GetBytesId(s: Bytes) returns (r: Option<nat>)
      ensures r == GetId(State(), hash, s)
    {
      var h := hash(s);
      if h in lookup {
        r := ScanBucket(lookup[h], s);
      } else {
        r := None;
      }
    }

    method InternBytes(s: Bytes) returns (id: nat)
      modifies this
      ensures (State(), id) == Intern(old(State()), hash, s)
    {
      var known := GetBytesId(s);
      if known.Some? {
        return known.value;
      }
      var h := hash(s);
      var start := |arena| % U32;
      var len := |s| % U16;
      arena := arena + s;
      id := |offsets| % U32;
      offsets := offsets + [(start, len)];
      lookup := lookup[h := (if h in lookup then lookup[h] else []) + [id]];
    }

    method Clear()
      modifies this
      ensures State() == EMPTY
    {
      arena, lookup, offsets := [], map[], [];
    }
  }

  /** Rebuild an interner from its serialized parts. */
  method FromParts(hash: Bytes -> nat, arena: Bytes, offsets: seq<(nat, nat)>) returns (r: StringInterner)
    ensures r.hash == hash
    ensures r.State() == FromSerialized(arena, offsets, hash)
  {
    var lookup: map<nat, seq<nat>> := map[];
    for idx := 0 to |offsets|
      invariant lookup == Rebuilt(arena, offsets, hash, idx)
    {
      var bytes := Slice(arena, offsets[idx]);
      if bytes.Some? {
        var h := hash(bytes.value);
        lookup := lookup[h := (if h in lookup then lookup[h] else []) + [idx % U32]];
      }
    }
    r := new StringInterner(hash);
    r.arena, r.offsets, r.lookup := arena, offsets, lookup;
  }

  // ------------------------------------------------------ whole runs

  /** The interner after interning a list of strings in order. */
  function InternAll(p: Parts, hash: Bytes -> nat, todo: seq<Bytes>): Parts {
    if todo == [] then p
    else Intern(InternAll(p, hash, todo[..|todo| - 1]), hash, todo[|todo| - 1]).0
  }

  /** The distinct strings of a list, in order of first appearance. */
  function Distinct(todo: seq<Bytes>): seq<Bytes> {
    if todo == [] then []
    else
      var before := Distinct(todo[..|todo| - 1]);
      if todo[|todo| - 1] in before then before else before + [todo[|todo| - 1]]
  }

  ghost predicate RunFits(todo: seq<Bytes>) {
    && |todo| <= U32
    && (forall k :: 0 <= k < |todo| ==> |todo[k]| < U16)
    && TotalLength(todo) < U32
  }

  function TotalLength(todo: seq<Bytes>): nat {
    if todo == [] then 0 else TotalLength(todo[..|todo| - 1]) + |todo[|todo| - 1]|
  }

  /** Over any run within the field widths the interner holds exactly the
      distinct strings, numbered in order of first appearance. */
  lemma {:induction false} RunHolds(hash: Bytes -> nat, todo: seq<Bytes>)
    requires RunFits(todo)
    ensures var p := InternAll(EMPTY, hash, todo);
            Holds(p, hash, Distinct(todo)) && |p.arena| <= TotalLength(todo) && |Distinct(todo)| <= |todo|
  {
    if todo != [] {
      var init, s := todo[..|todo| - 1], todo[|todo| - 1];
      RunHolds(hash, init);
      var p := InternAll(EMPTY, hash, init);
      LookupIsLinearScan(p, hash, Distinct(init), s);
      InternRefines(p, hash, Distinct(init), s);
    }
  }

  /** What is serialized does not depend on the hash function. */
  lemma {:induction false} SerializedAlike(hash: Bytes -> nat, other: Bytes -> nat, todo: seq<Bytes>)
    requires RunFits(todo)
    ensures var p, q := InternAll(EMPTY, hash, todo), InternAll(EMPTY, other, todo);
            p.arena == q.arena && p.offsets == q.offsets
  {
    if todo != [] {
      var init, s := todo[..|todo| - 1], todo[|todo| - 1];
      SerializedAlike(hash, other, init);
      RunHolds(hash, init);
      RunHolds(other, init);
      LookupIsLinearScan(InternAll(EMPTY, hash, init), hash, Distinct(init), s);
      LookupIsLinearScan(InternAll(EMPTY, other, init), other, Distinct(init), s);
    }
  }

  /** Rebuilding from what a run serialized gives the interner that the run itself
      would have built, under the same hash function or any other, and every
      string is found where it first appeared. */
  lemma FromPartsIsSame(hash: Bytes -> nat, other: Bytes -> nat, todo: seq<Bytes>, s: Bytes)
    requires RunFits(todo)
    ensures var p := InternAll(EMPTY, hash, todo);
            && FromSerialized(p.arena, p.offsets, hash) == p
            && FromSerialized(p.arena, p.offsets, other) == InternAll(EMPTY, other, todo)
            && GetId(FromSerialized(p.arena, p.offsets, other), other, s) == Position(Distinct(todo), s)
  {
    RunHolds(hash, todo);
    RunHolds(other, todo);
    SerializedAlike(hash, other, todo);
    LookupIsLinearScan(InternAll(EMPTY, other, todo), other, Distinct(todo), s);
  }
}
