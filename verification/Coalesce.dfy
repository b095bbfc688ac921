/** File events, their coalescing by path, and what applying them does to the
    index of files. */
module Coalesce {
  import opened Sequences
  import opened Wrappers

  datatype Path = Path(absolute: bool, parts: seq<string>)

  datatype Kind = Created | Modified | Removed | Renamed

  datatype FileEvent = FileEvent(paths: seq<Path>, kind: Kind)

  /** One file's extracted symbols. */
  datatype Entry = Entry(symbols: seq<string>)

  type Index = map<Path, Entry>

  /** A fixed file system and language registry: which paths are supported and
      what reading and parsing each one gives. */
  datatype World = World(root: Path, supported: Path -> bool, parse: Path -> Option<Entry>)

  datatype Op = Op(path: Path, kind: Kind)

  // ------------------------------------------------------ paths

  function ToRelative(root: Path, p: Path): Path {
    if p.absolute == root.absolute && root.parts <= p.parts then Path(false, p.parts[|root.parts|..]) else p
  }

  predicate UnderHiddenDir(p: Path) {
    exists k :: 0 <= k < |p.parts| && |p.parts[k]| > 1 && p.parts[k][0] == '.'
  }

  predicate ShouldIndex(w: World, p: Path) {
    w.supported(p) && !UnderHiddenDir(ToRelative(w.root, p))
  }

  function Key(w: World, p: Path): Path {
    ToRelative(w.root, p)
  }

  /** Two absolute paths never share an index key. */
  lemma KeysAreDistinct(w: World, p: Path, q: Path)
    requires w.root.absolute && p.absolute && q.absolute
    ensures Key(w, p) == Key(w, q) ==> p == q
  {
    if Key(w, p) == Key(w, q) && w.root.parts <= p.parts {
      assert p.parts == w.root.parts + p.parts[|w.root.parts|..];
      assert q.parts == w.root.parts + q.parts[|w.root.parts|..];
    }
  }

  // ------------------------------------------------------ one path at a time

  /** The single-path operations an event stands for. */
  function Ops(e: FileEvent): seq<Op> {
    if e.kind == Renamed && |e.paths| >= 2 then [Op(e.paths[0], Removed), Op(e.paths[1], Created)]
    else Spread(e.paths, e.kind)
  }

  function Spread(paths: seq<Path>, kind: Kind): seq<Op> {
    if paths == [] then [] else Spread(paths[..|paths| - 1], kind) + [Op(paths[|paths| - 1], kind)]
  }

  function AllOps(events: seq<FileEvent>): seq<Op> {
    if events == [] then [] else AllOps(events[..|events| - 1]) + Ops(events[|events| - 1])
  }

  function Reindexed(w: World, index: Index, p: Path): Index {
    var cleared := index - {Key(w, p)};
    match w.parse(p)
    case None => cleared
    case Some(entry) => cleared[Key(w, p) := entry]
  }

  function ApplyOp(w: World, index: Index, op: Op): Index {
    if !ShouldIndex(w, op.path) then index
    else if op.kind == Removed then index - {Key(w, op.path)}
    else Reindexed(w, index, op.path)
  }

  /** Processing operations one at a time. */
  function Sequential(w: World, index: Index, ops: seq<Op>): Index {
    if ops == [] then index
    else ApplyOp(w, Sequential(w, index, ops[..|ops| - 1]), ops[|ops| - 1])
  }

  // ------------------------------------------------------ coalescing

  function Insert(m: map<Path, Kind>, p: Path, kind: Kind): map<Path, Kind> {
    if p !in m then m[p := kind]
    else if (m[p] == Created || m[p] == Modified) && kind == Removed then m - {p}
    else if m[p] == Removed && (kind == Created || kind == Modified) then m[p := Created]
    else m[p := kind]
  }

  function InsertAll(m: map<Path, Kind>, ops: seq<Op>): map<Path, Kind> {
    if ops == [] then m
    else Insert(InsertAll(m, ops[..|ops| - 1]), ops[|ops| - 1].path, ops[|ops| - 1].kind)
  }

  function Coalesced(ops: seq<Op>): map<Path, Kind> {
    InsertAll(map[], ops)
  }

  lemma InsertOneMore(m: map<Path, Kind>, ops: seq<Op>, op: Op)
    ensures InsertAll(m, ops + [op]) == Insert(InsertAll(m, ops), op.path, op.kind)
  {
    assert (ops + [op])[..|ops|] == ops;
  }

  lemma {:induction false} InsertAllConcat(m: map<Path, Kind>, a: seq<Op>, b: seq<Op>)
    ensures InsertAll(m, a + b) == InsertAll(InsertAll(m, a), b)
  {
    if b == [] {
      EmptyRight(a);
    } else {
      InsertAllConcat(m, a, b[..|b| - 1]);
      ConcatLast(a, b);
    }
  }

  lemma InsertTwo(m: map<Path, Kind>, first: Op, second: Op)
    ensures InsertAll(m, [first, second]) == Insert(Insert(m, first.path, first.kind), second.path, second.kind)
  {
    InsertOneMore(m, [], first);
    InsertOneMore(m, [first], second);
    assert [] + [first] == [first] && [first] + [second] == [first, second];
  }

  lemma InsertNextPath(m: map<Path, Kind>, paths: seq<Path>, k: nat, kind: Kind)
    requires k < |paths|
    ensures InsertAll(m, Spread(paths[..k + 1], kind)) == Insert(InsertAll(m, Spread(paths[..k], kind)), paths[k], kind)
  {
    assert paths[..k + 1][..k] == paths[..k];
    InsertOneMore(m, Spread(paths[..k], kind), Op(paths[k], kind));
  }

  class CoalescedEvents {
    var events: map<Path, Kind>

    constructor ()
      ensures events == map[]
    {
      events := map[];
    }

    method InsertEntry(p: Path, kind: Kind)
      modifies this
      ensures events == Insert(old(events), p, kind)
    {
      if p !in events {
        events := events[p := kind];
      } else {
        var previous := events[p];
        if previous != Removed && previous != Renamed && kind == Removed {
          events := events - {p};
        } else if previous == Removed && kind != Removed && kind != Renamed {
          events := events[p := Created];
        } else {
          events := events[p := kind];
        }
      }
    }

    method Add(event: FileEvent)
      modifies this
      ensures events == InsertAll(old(events), Ops(event))
    {
      if event.kind == Renamed && |event.paths| >= 2 {
        InsertTwo(events, Op(event.paths[0], Removed), Op(event.paths[1], Created));
        InsertEntry(event.paths[0], Removed);
        InsertEntry(event.paths[1], Created);
        return;
      }
      for k := 0 to |event.paths|
        invariant events == InsertAll(old(events), Spread(event.paths[..k], event.kind))
      {
        InsertNextPath(old(events), event.paths, k, event.kind);
        InsertEntry(event.paths[k], event.kind);
      }
      assert event.paths[..|event.paths|] == event.paths;
    }
  }

  // ------------------------------------------------------ what survives

  /** The last operation on `p`. */
  function LastKind(ops: seq<Op>, p: Path): Option<Kind> {
    if ops == [] then None
    else if ops[|ops| - 1].path == p then Some(ops[|ops| - 1].kind)
    else LastKind(ops[..|ops| - 1], p)
  }

  /** The survivor for a path reindexes exactly when the last operation on it is
      not a removal; after a removal either a removal survives or nothing does. */
  lemma {:induction false} Survivor(ops: seq<Op>, p: Path)
    ensures LastKind(ops, p).None? ==> p !in Coalesced(ops)
    ensures p in Coalesced(ops) ==>
              LastKind(ops, p).Some? && (Coalesced(ops)[p] == Removed <==> LastKind(ops, p).value == Removed)
    ensures LastKind(ops, p).Some? && LastKind(ops, p).value != Removed ==> p in Coalesced(ops)
  {
    if ops != [] {
      Survivor(ops[..|ops| - 1], p);
    }
  }

  /** `p` was created or modified and then removed inside the batch. */
  predicate Cancelled(ops: seq<Op>, p: Path) {
    p !in Coalesced(ops) && LastKind(ops, p).Some?
  }

  // ------------------------------------------------------ applying the survivors

  /** Apply the coalesced operations in the order given. */
  function ApplyInOrder(w: World, index: Index, m: map<Path, Kind>, order: seq<Path>): Index
    requires forall p :: p in order ==> p in m
  {
    if order == [] then index
    else
      var last := order[|order| - 1];
      ApplyOp(w, ApplyInOrder(w, index, m, order[..|order| - 1]), Op(last, m[last]))
  }

  /** No path comes twice. */
  ghost predicate Unrepeated(order: seq<Path>) {
    order == [] || (order[|order| - 1] !in order[..|order| - 1] && Unrepeated(order[..|order| - 1]))
  }

  ghost predicate IsOrder(order: seq<Path>, m: map<Path, Kind>) {
    Unrepeated(order) && forall p :: p in order <==> p in m
  }

  /** `after` is what some iteration order of the map produces. */
  ghost predicate AppliedInSomeOrder(w: World, before: Index, m: map<Path, Kind>, after: Index) {
    exists order :: IsOrder(order, m) && after == ApplyInOrder(w, before, m, order)
  }

  function Lookup(index: Index, key: Path): Option<Entry> {
    if key in index then Some(index[key]) else None
  }

  /** What an operation of this kind leaves for its path. */
  function Outcome(w: World, index: Index, p: Path, kind: Option<Kind>): Option<Entry> {
    if kind.None? || !ShouldIndex(w, p) then Lookup(index, Key(w, p))
    else if kind.value == Removed then None
    else w.parse(p)
  }

  ghost predicate AbsolutePaths(w: World, ops: seq<Op>) {
    w.root.absolute && forall k :: 0 <= k < |ops| ==> ops[k].path.absolute
  }

  lemma {:induction false} SequentialAt(w: World, index: Index, ops: seq<Op>, p: Path)
    requires AbsolutePaths(w, ops) && p.absolute
    ensures Lookup(Sequential(w, index, ops), Key(w, p)) == Outcome(w, index, p, LastKind(ops, p))
  {
    if ops != [] {
      SequentialAt(w, index, ops[..|ops| - 1], p);
      KeysAreDistinct(w, p, ops[|ops| - 1].path);
    }
  }

  /** A supported path, none of whose components below the root is hidden. */
  ghost predicate Indexable(w: World, p: Path) {
    w.supported(p) && forall k :: (if w.root.parts <= p.parts then |w.root.parts| else 0) <= k < |p.parts| ==>
      !(|p.parts[k]| > 1 && p.parts[k][0] == '.')
  }

  lemma IndexableIff(w: World, p: Path)
    requires w.root.absolute && p.absolute
    ensures Indexable(w, p) <==> ShouldIndex(w, p)
  {
    var from := if w.root.parts <= p.parts then |w.root.parts| else 0;
    var rel := ToRelative(w.root, p);
    assert forall k :: 0 <= k < |rel.parts| ==> rel.parts[k] == p.parts[from + k];
    if w.supported(p) && !UnderHiddenDir(rel) {
      forall k | from <= k < |p.parts|
        ensures !(|p.parts[k]| > 1 && p.parts[k][0] == '.')
      {
        assert rel.parts[k - from] == p.parts[k];
      }
    }
  }

  /** The operation at `at` is the last one on `p`. */
  ghost predicate LastOn(ops: seq<Op>, p: Path, at: nat) {
    at < |ops| && ops[at].path == p && forall k :: at < k < |ops| ==> ops[k].path != p
  }

  lemma {:induction false} LastKindAt(ops: seq<Op>, p: Path)
    ensures forall at: nat :: LastOn(ops, p, at) ==> LastKind(ops, p) == Some(ops[at].kind)
    ensures (forall k :: 0 <= k < |ops| ==> ops[k].path != p) ==> LastKind(ops, p) == None
  {
    if ops != [] {
      var init := ops[..|ops| - 1];
      LastKindAt(init, p);
      forall at: nat | LastOn(ops, p, at)
        ensures LastKind(ops, p) == Some(ops[at].kind)
      {
        assert at < |init| ==> LastOn(init, p, at);
      }
    }
  }

  /** What one-at-a-time processing leaves for a path, by lookup: its parse after a
      last operation that is not a removal, nothing after a removal, and what was
      there before when nothing was done to it or it is not to be indexed. */
  lemma SequentialByLookup(w: World, index: Index, ops: seq<Op>, p: Path)
    requires AbsolutePaths(w, ops) && p.absolute
    ensures var before, after := Lookup(index, Key(w, p)), Lookup(Sequential(w, index, ops), Key(w, p));
            && (forall at: nat :: LastOn(ops, p, at) && Indexable(w, p) ==>
                  after == if ops[at].kind == Removed then None else w.parse(p))
            && (!Indexable(w, p) || (forall k :: 0 <= k < |ops| ==> ops[k].path != p) ==> after == before)
  {
    SequentialAt(w, index, ops, p);
    LastKindAt(ops, p);
    IndexableIff(w, p);
  }

  /** A rename of one path to another: the old one goes and the new one is read. */
  lemma RenameByLookup(w: World, index: Index, from: Path, to: Path)
    requires w.root.absolute && from.absolute && to.absolute && from != to
    requires Indexable(w, from) && Indexable(w, to)
    ensures var after := Sequential(w, index, AllOps([FileEvent([from, to], Renamed)]));
            Lookup(after, Key(w, from)) == None && Lookup(after, Key(w, to)) == w.parse(to)
  {
    var e := FileEvent([from, to], Renamed);
    var ops := [Op(from, Removed), Op(to, Created)];
    assert [e][..0] == [] && AllOps([]) == [];
    EmptyRight(Ops(e));
    assert [from, to][0] == from && Ops(e) == ops;
    SequentialByLookup(w, index, ops, from);
    SequentialByLookup(w, index, ops, to);
    assert LastOn(ops, from, 0) && LastOn(ops, to, 1);
  }

  /** Any other event does the same to each of its paths. */
  lemma {:induction false} SpreadByPosition(paths: seq<Path>, kind: Kind)
    ensures |Spread(paths, kind)| == |paths|
    ensures forall k :: 0 <= k < |paths| ==> Spread(paths, kind)[k] == Op(paths[k], kind)
  {
    if paths != [] {
      SpreadByPosition(paths[..|paths| - 1], kind);
    }
  }

  function KindIn(m: map<Path, Kind>, order: seq<Path>, p: Path): Option<Kind>
    requires forall q :: q in order ==> q in m
  {
    if p in order then Some(m[p]) else None
  }

  /** One operation sets its own path's entry and no other. */
  lemma AppliedAt(w: World, index: Index, op: Op, p: Path)
    requires w.root.absolute && p.absolute && op.path.absolute
    ensures Lookup(ApplyOp(w, index, op), Key(w, p)) ==
            if op.path == p then Outcome(w, index, p, Some(op.kind)) else Lookup(index, Key(w, p))
  {
    KeysAreDistinct(w, p, op.path);
  }

  lemma KindAfter(m: map<Path, Kind>, order: seq<Path>, last: Path, p: Path)
    requires (forall q :: q in order ==> q in m) && last in m
    ensures forall q :: q in order + [last] ==> q in m
    ensures KindIn(m, order + [last], p) == if p == last then Some(m[last]) else KindIn(m, order, p)
  {}

  lemma {:induction false} ApplyInOrderAt(w: World, index: Index, m: map<Path, Kind>, order: seq<Path>, p: Path)
    requires w.root.absolute && p.absolute
    requires Unrepeated(order) && forall q :: q in order ==> q in m && q.absolute
    ensures Lookup(ApplyInOrder(w, index, m, order), Key(w, p)) == Outcome(w, index, p, KindIn(m, order, p))
  {
    if order != [] {
      var last, init := order[|order| - 1], order[..|order| - 1];
      assert order == init + [last];
      ApplyInOrderAt(w, index, m, init, p);
      KindAfter(m, init, last, p);
      AppliedAt(w, ApplyInOrder(w, index, m, init), Op(last, m[last]), p);
    }
  }

  /** Keys that belong to no operation keep their entry. */
  lemma {:induction false} SequentialElsewhere(w: World, index: Index, ops: seq<Op>, key: Path)
    requires forall k :: 0 <= k < |ops| ==> Key(w, ops[k].path) != key
    ensures Lookup(Sequential(w, index, ops), key) == Lookup(index, key)
  {
    if ops != [] {
      SequentialElsewhere(w, index, ops[..|ops| - 1], key);
    }
  }

  lemma {:induction false} ApplyInOrderElsewhere(w: World, index: Index, m: map<Path, Kind>, order: seq<Path>, key: Path)
    requires forall q :: q in order ==> q in m
    requires forall k :: 0 <= k < |order| ==> Key(w, order[k]) != key
    ensures Lookup(ApplyInOrder(w, index, m, order), key) == Lookup(index, key)
  {
    if order != [] {
      ApplyInOrderElsewhere(w, index, m, order[..|order| - 1], key);
    }
  }

  lemma SameLookups(a: Index, b: Index)
    requires forall key :: Lookup(a, key) == Lookup(b, key)
    ensures a == b
  {
    forall key ensures key in a <==> key in b
               ensures key in a ==> a[key] == b[key] {
      assert Lookup(a, key) == Lookup(b, key);
    }
  }

  lemma {:induction false} CoalescedPaths(ops: seq<Op>, p: Path)
    requires LastKind(ops, p).Some?
    ensures exists k :: 0 <= k < |ops| && ops[k].path == p
  {
    if ops[|ops| - 1].path != p {
      CoalescedPaths(ops[..|ops| - 1], p);
    }
  }

  /** What the coalesced operations leave under the key of `p`, in any order. */
  lemma CoalescedAt(w: World, index: Index, ops: seq<Op>, order: seq<Path>, p: Path)
    requires AbsolutePaths(w, ops) && p.absolute && IsOrder(order, Coalesced(ops))
    ensures Lookup(ApplyInOrder(w, index, Coalesced(ops), order), Key(w, p))
         == if Cancelled(ops, p) then Lookup(index, Key(w, p)) else Outcome(w, index, p, LastKind(ops, p))
  {
    Survivor(ops, p);
    forall q | q in order ensures q.absolute {
      Survivor(ops, q);
      CoalescedPaths(ops, q);
    }
    ApplyInOrderAt(w, index, Coalesced(ops), order, p);
  }

  /** A path that the batch cancels although the index already holds it. */
  ghost predicate StaleCancel(w: World, index: Index, ops: seq<Op>, p: Path) {
    Cancelled(ops, p) && ShouldIndex(w, p) && Key(w, p) in index
  }

  ghost predicate NoStaleCancel(w: World, index: Index, ops: seq<Op>) {
    forall p :: !StaleCancel(w, index, ops, p)
  }

  lemma CancelledIsRemoved(ops: seq<Op>, p: Path)
    requires Cancelled(ops, p)
    ensures LastKind(ops, p) == Some(Removed)
  {
    Survivor(ops, p);
  }

  /** Path by path: coalescing agrees with processing the operations one at a
      time on every path that is not a stale cancel, and on a stale cancel the
      old entry stays where one-at-a-time processing would have dropped it. */
  lemma CoalescingPathByPath(w: World, index: Index, ops: seq<Op>, order: seq<Path>, p: Path)
    requires AbsolutePaths(w, ops) && p.absolute && IsOrder(order, Coalesced(ops))
    ensures var coalesced := Lookup(ApplyInOrder(w, index, Coalesced(ops), order), Key(w, p));
            var sequential := Lookup(Sequential(w, index, ops), Key(w, p));
            && (coalesced == sequential <==> !StaleCancel(w, index, ops, p))
            && (StaleCancel(w, index, ops, p) ==> coalesced == Lookup(index, Key(w, p)) && sequential.None?)
  {
    SequentialAt(w, index, ops, p);
    CoalescedAt(w, index, ops, order, p);
    if Cancelled(ops, p) {
      CancelledIsRemoved(ops, p);
    }
  }

  lemma CoalescedElsewhere(w: World, index: Index, ops: seq<Op>, order: seq<Path>, key: Path)
    requires IsOrder(order, Coalesced(ops))
    requires forall k :: 0 <= k < |ops| ==> Key(w, ops[k].path) != key
    ensures Lookup(ApplyInOrder(w, index, Coalesced(ops), order), key) == Lookup(Sequential(w, index, ops), key)
  {
    forall k | 0 <= k < |order| ensures Key(w, order[k]) != key {
      Survivor(ops, order[k]);
      CoalescedPaths(ops, order[k]);
    }
    ApplyInOrderElsewhere(w, index, Coalesced(ops), order, key);
    SequentialElsewhere(w, index, ops, key);
  }

  /** Coalescing refines one-at-a-time processing exactly when no path that is
      already indexed is cancelled, whatever order the survivors are applied in. */
  lemma CoalescingRefinesIff(w: World, index: Index, ops: seq<Op>, order: seq<Path>)
    requires AbsolutePaths(w, ops) && IsOrder(order, Coalesced(ops))
    ensures ApplyInOrder(w, index, Coalesced(ops), order) == Sequential(w, index, ops) <==>
            NoStaleCancel(w, index, ops)
  {
    var after := ApplyInOrder(w, index, Coalesced(ops), order);
    if p :| StaleCancel(w, index, ops, p) {
      CoalescedPaths(ops, p);
      CoalescingPathByPath(w, index, ops, order, p);
    } else {
      forall key ensures Lookup(after, key) == Lookup(Sequential(w, index, ops), key) {
        if k :| 0 <= k < |ops| && Key(w, ops[k].path) == key {
          CoalescingPathByPath(w, index, ops, order, ops[k].path);
        } else {
          CoalescedElsewhere(w, index, ops, order, key);
        }
      }
      SameLookups(after, Sequential(w, index, ops));
    }
  }

  /** The iteration order of the map does not matter. */
  lemma OrderDoesNotMatter(w: World, index: Index, ops: seq<Op>, order1: seq<Path>, order2: seq<Path>)
    requires AbsolutePaths(w, ops) && IsOrder(order1, Coalesced(ops)) && IsOrder(order2, Coalesced(ops))
    ensures ApplyInOrder(w, index, Coalesced(ops), order1) == ApplyInOrder(w, index, Coalesced(ops), order2)
  {
    var a, b := ApplyInOrder(w, index, Coalesced(ops), order1), ApplyInOrder(w, index, Coalesced(ops), order2);
    forall key ensures Lookup(a, key) == Lookup(b, key) {
      if k :| 0 <= k < |ops| && Key(w, ops[k].path) == key {
        CoalescedAt(w, index, ops, order1, ops[k].path);
        CoalescedAt(w, index, ops, order2, ops[k].path);
      } else {
        CoalescedElsewhere(w, index, ops, order1, key);
        CoalescedElsewhere(w, index, ops, order2, key);
      }
    }
    SameLookups(a, b);
  }
}
