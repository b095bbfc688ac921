/** The coalescing, draining loop against processing every command at once. */
module Refinement {
  import opened Wrappers
  import opened Sequences
  import opened Coalesce
  import opened CommandLoop

  function TokenIndex(w: World, rebuilt: Index, index: Index, t: Token): Index {
    match t
    case Change(e) => Sequential(w, index, Ops(e))
    case Other(c) => Handled(w, rebuilt, index, c)
  }

  /** The index after processing a stream one token, and within it one
      operation, at a time. */
  function OneAtATime(w: World, rebuilt: Index, index: Index, tokens: seq<Token>): Index {
    if tokens == [] then index
    else TokenIndex(w, rebuilt, OneAtATime(w, rebuilt, index, tokens[..|tokens| - 1]), tokens[|tokens| - 1])
  }

  lemma {:induction false} OneAtATimeConcat(w: World, rebuilt: Index, index: Index, a: seq<Token>, b: seq<Token>)
    ensures OneAtATime(w, rebuilt, index, a + b) == OneAtATime(w, rebuilt, OneAtATime(w, rebuilt, index, a), b)
  {
    if b == [] {
      EmptyRight(a);
    } else {
      ConcatLast(a, b);
      OneAtATimeConcat(w, rebuilt, index, a, b[..|b| - 1]);
    }
  }

  lemma {:induction false} SequentialConcat(w: World, index: Index, a: seq<Op>, b: seq<Op>)
    ensures Sequential(w, index, a + b) == Sequential(w, Sequential(w, index, a), b)
  {
    if b == [] {
      EmptyRight(a);
    } else {
      ConcatLast(a, b);
      SequentialConcat(w, index, a, b[..|b| - 1]);
    }
  }

  lemma {:induction false} EventsOneAtATime(w: World, rebuilt: Index, index: Index, events: seq<FileEvent>)
    ensures OneAtATime(w, rebuilt, index, Changes(events)) == Sequential(w, index, AllOps(events))
  {
    if events != [] {
      var init, last := events[..|events| - 1], events[|events| - 1];
      EventsOneAtATime(w, rebuilt, index, init);
      SequentialConcat(w, index, AllOps(init), Ops(last));
      OneAtATimeConcat(w, rebuilt, index, Changes(init), [Change(last)]);
      assert [Change(last)][..0] == [];
    }
  }

  /** No flush cancels a path that the index held before that flush. */
  ghost predicate Faithful(w: World, trace: seq<Effect>) {
    trace == [] || (FaithfulEffect(w, trace[|trace| - 1]) && Faithful(w, trace[..|trace| - 1]))
  }

  ghost predicate FaithfulEffect(w: World, e: Effect) {
    e.Flush? ==> NoStaleCancel(w, e.before, AllOps(e.events))
  }

  ghost predicate AbsoluteEvents(w: World, trace: seq<Effect>) {
    forall k :: 0 <= k < |trace| && trace[k].Flush? ==> AbsolutePaths(w, AllOps(trace[k].events))
  }

  /** After every effect the index is the one-at-a-time index of the stream so far. */
  ghost predicate InStep(w: World, rebuilt: Index, start: Index, trace: seq<Effect>) {
    trace == []
    || (trace[|trace| - 1].after == OneAtATime(w, rebuilt, start, Flattened(trace))
        && InStep(w, rebuilt, start, trace[..|trace| - 1]))
  }

  /** One effect keeps the two indexes equal exactly when it is faithful. */
  lemma EffectInStep(w: World, rebuilt: Index, e: Effect)
    requires EffectOk(w, rebuilt, e)
    requires e.Flush? ==> AbsolutePaths(w, AllOps(e.events))
    ensures e.after == OneAtATime(w, rebuilt, e.before, EffectTokens(e)) <==>
            FaithfulEffect(w, e)
  {
    match e
    case Flush(events, before, after) =>
      EventsOneAtATime(w, rebuilt, before, events);
      var order :| IsOrder(order, Coalesced(AllOps(events)))
                   && after == ApplyInOrder(w, before, Coalesced(AllOps(events)), order);
      CoalescingRefinesIff(w, before, AllOps(events), order);
    case Handle(c, before, after) =>
      assert [Other(c)][..0] == [];
  }

  lemma {:induction false} EndOfFaithful(w: World, rebuilt: Index, start: Index, trace: seq<Effect>, end: Index)
    requires TraceFrom(w, rebuilt, start, trace, end) && AbsoluteEvents(w, trace)
    ensures InStep(w, rebuilt, start, trace) <==> Faithful(w, trace)
    ensures Faithful(w, trace) ==> end == OneAtATime(w, rebuilt, start, Flattened(trace))
  {
    if trace != [] {
      var init, last := trace[..|trace| - 1], trace[|trace| - 1];
      EndOfFaithful(w, rebuilt, start, init, last.before);
      EffectInStep(w, rebuilt, last);
      OneAtATimeConcat(w, rebuilt, start, Flattened(init), EffectTokens(last));
    }
  }

  /** The index that every command sees, and every flush leaves, is the one that
      processing the stream one operation at a time would give, exactly when no
      flush cancels a path the index already holds. */
  lemma LoopRefinesOneAtATime(w: World, rebuilt: Index, start: Index, trace: seq<Effect>, end: Index)
    requires TraceFrom(w, rebuilt, start, trace, end) && AbsoluteEvents(w, trace)
    ensures InStep(w, rebuilt, start, trace) <==> Faithful(w, trace)
  {
    EndOfFaithful(w, rebuilt, start, trace, end);
  }

  /** A file that is indexed, then reported modified and removed in one batch,
      stays in the index. */
  lemma StaleEntrySurvives()
    ensures var root, p := Path(true, ["r"]), Path(true, ["r", "a.rs"]);
            var w := World(root, (q: Path) => true, (q: Path) => None);
            var ops := [Op(p, Modified), Op(p, Removed)];
            var index := map[Key(w, p) := Entry(["f"])];
            && StaleCancel(w, index, ops, p)
            && Coalesced(ops) == map[]
            && Key(w, p) !in Sequential(w, index, ops)
  {
    var root, p := Path(true, ["r"]), Path(true, ["r", "a.rs"]);
    var w := World(root, (q: Path) => true, (q: Path) => None);
    var ops := [Op(p, Modified), Op(p, Removed)];
    var index := map[Key(w, p) := Entry(["f"])];
    assert ops == [] + [ops[0]] + [ops[1]];
    InsertOneMore(map[], [], ops[0]);
    InsertOneMore(map[], [ops[0]], ops[1]);
    EmptyRight([ops[0]]);
    assert InsertAll(map[], [ops[0]]) == map[p := Modified];
    assert LastKind(ops, p) == Some(Removed);
    assert Key(w, p) == Path(false, ["a.rs"]);
    SequentialAt(w, index, ops, p);
  }
}
