/** The index manager's command loop: draining file events from the channel and
    handling every other command in its place. */
module CommandLoop {
  import opened Wrappers
  import opened Sequences
  import opened Coalesce

  /** Commands other than file events and shutdown; queries only read. */
  datatype Command =
    | Event(event: FileEvent)
    | Batch(events: seq<FileEvent>)
    | Rebuild
    | BackgroundRefresh(stale: seq<Path>, deleted: seq<Path>)
    | Query(id: nat)
    | Shutdown

  /** What the loop does, with the index before and after. */
  datatype Effect =
    | Flush(events: seq<FileEvent>, before: Index, after: Index)
    | Handle(command: Command, before: Index, after: Index)

  // ------------------------------------------------------ what commands mean

  datatype Token = Change(event: FileEvent) | Other(command: Command)

  function Changes(events: seq<FileEvent>): seq<Token> {
    if events == [] then [] else Changes(events[..|events| - 1]) + [Change(events[|events| - 1])]
  }

  function Tokens(c: Command): seq<Token> {
    match c
    case Event(e) => [Change(e)]
    case Batch(es) => Changes(es)
    case _ => [Other(c)]
  }

  /** The first `n` commands as one stream of file events and other commands. */
  function Stream(cs: seq<Command>, n: nat): seq<Token>
    requires n <= |cs|
  {
    if n == 0 then [] else Stream(cs, n - 1) + Tokens(cs[n - 1])
  }

  function EffectTokens(e: Effect): seq<Token> {
    match e
    case Flush(events, _, _) => Changes(events)
    case Handle(c, _, _) => [Other(c)]
  }

  /** The same stream, read off what the loop did. */
  function Flattened(trace: seq<Effect>): seq<Token> {
    if trace == [] then [] else Flattened(trace[..|trace| - 1]) + EffectTokens(trace[|trace| - 1])
  }

  /** Number of commands up to and including the first shutdown. */
  function UpToShutdown(cs: seq<Command>): (n: nat)
    ensures n <= |cs|
    ensures forall k :: 0 <= k < n - 1 ==> !cs[k].Shutdown?
    ensures n < |cs| ==> n > 0 && cs[n - 1].Shutdown?
  {
    if cs == [] then 0 else if cs[0].Shutdown? then 1 else 1 + UpToShutdown(cs[1..])
  }

  function RefreshDeleted(w: World, index: Index, deleted: seq<Path>): Index {
    if deleted == [] then index
    else RefreshDeleted(w, index, deleted[..|deleted| - 1]) - {deleted[|deleted| - 1]}
  }

  function RefreshStale(w: World, index: Index, stale: seq<Path>): Index {
    if stale == [] then index
    else
      var before := RefreshStale(w, index, stale[..|stale| - 1]);
      var p := stale[|stale| - 1];
      if w.supported(p) then Reindexed(w, before, p) else before
  }

  lemma {:induction false} DeletedByLookup(w: World, index: Index, deleted: seq<Path>, key: Path)
    ensures Lookup(RefreshDeleted(w, index, deleted), key) == if key in deleted then None else Lookup(index, key)
  {
    if deleted != [] {
      DeletedByLookup(w, index, deleted[..|deleted| - 1], key);
      assert key in deleted <==> key in deleted[..|deleted| - 1] || key == deleted[|deleted| - 1];
    }
  }

  /** A stale file that a refresh reads again under this key. */
  predicate Rereads(w: World, p: Path, key: Path) {
    w.supported(p) && Key(w, p) == key
  }

  /** The stale file at `k` is the last one read again under this key. */
  ghost predicate LastReread(w: World, stale: seq<Path>, key: Path, k: nat) {
    k < |stale| && Rereads(w, stale[k], key) && forall m :: k < m < |stale| ==> !Rereads(w, stale[m], key)
  }

  ghost predicate NoneReread(w: World, stale: seq<Path>, key: Path) {
    forall k :: 0 <= k < |stale| ==> !Rereads(w, stale[k], key)
  }

  lemma OneMoreStale(w: World, index: Index, p: Path, key: Path)
    ensures var after := if w.supported(p) then Reindexed(w, index, p) else index;
            Lookup(after, key) == if Rereads(w, p, key) then w.parse(p) else Lookup(index, key)
  {}

  lemma {:induction false} StaleByLookup(w: World, index: Index, stale: seq<Path>, key: Path)
    ensures NoneReread(w, stale, key) ==> Lookup(RefreshStale(w, index, stale), key) == Lookup(index, key)
    ensures forall k: nat :: LastReread(w, stale, key, k) ==>
              Lookup(RefreshStale(w, index, stale), key) == w.parse(stale[k])
  {
    if stale != [] {
      var init, last := stale[..|stale| - 1], stale[|stale| - 1];
      StaleByLookup(w, index, init, key);
      OneMoreStale(w, RefreshStale(w, index, init), last, key);
      forall k: nat | LastReread(w, stale, key, k)
        ensures Lookup(RefreshStale(w, index, stale), key) == w.parse(stale[k])
      {
        assert k < |init| ==> LastReread(w, init, key, k);
      }
    }
  }

  /** What a background refresh leaves, by lookup: for the key of a stale supported
      file its parse, for any other deleted path nothing, else what was there. */
  lemma RefreshByLookup(w: World, rebuilt: Index, index: Index, stale: seq<Path>, deleted: seq<Path>, key: Path)
    ensures var after := Lookup(Handled(w, rebuilt, index, BackgroundRefresh(stale, deleted)), key);
            && (forall k: nat :: LastReread(w, stale, key, k) ==> after == w.parse(stale[k]))
            && (NoneReread(w, stale, key) ==> after == if key in deleted then None else Lookup(index, key))
  {
    DeletedByLookup(w, index, deleted, key);
    StaleByLookup(w, RefreshDeleted(w, index, deleted), stale, key);
  }

  /** What a command other than a file event does to the index; a rebuild
      replaces it by `rebuilt`. */
  function Handled(w: World, rebuilt: Index, index: Index, c: Command): Index {
    match c
    case Rebuild => rebuilt
    case BackgroundRefresh(stale, deleted) => RefreshStale(w, RefreshDeleted(w, index, deleted), stale)
    case _ => index
  }

  ghost predicate EffectOk(w: World, rebuilt: Index, e: Effect) {
    match e
    case Flush(events, before, after) => AppliedInSomeOrder(w, before, Coalesced(AllOps(events)), after)
    case Handle(c, before, after) => !c.Event? && !c.Batch? && after == Handled(w, rebuilt, before, c)
  }

  /** Every effect starts from the index the previous one left. */
  ghost predicate TraceFrom(w: World, rebuilt: Index, start: Index, trace: seq<Effect>, end: Index) {
    if trace == [] then start == end
    else
      var last := trace[|trace| - 1];
      last.after == end && EffectOk(w, rebuilt, last)
      && TraceFrom(w, rebuilt, start, trace[..|trace| - 1], last.before)
  }

  lemma TraceMore(w: World, rebuilt: Index, start: Index, trace: seq<Effect>, end: Index, e: Effect)
    requires TraceFrom(w, rebuilt, start, trace, end) && e.before == end && EffectOk(w, rebuilt, e)
    ensures TraceFrom(w, rebuilt, start, trace + [e], e.after)
    ensures Flattened(trace + [e]) == Flattened(trace) + EffectTokens(e)
  {
    SnocLast(trace, e);
  }

  lemma {:induction false} ChangesConcat(a: seq<FileEvent>, b: seq<FileEvent>)
    ensures Changes(a + b) == Changes(a) + Changes(b)
  {
    if b == [] {
      EmptyRight(a);
    } else {
      ConcatLast(a, b);
      ChangesConcat(a, b[..|b| - 1]);
      Assoc(Changes(a), Changes(b[..|b| - 1]), [Change(b[|b| - 1])]);
    }
  }

  lemma AllOpsMore(events: seq<FileEvent>, e: FileEvent)
    ensures AllOps(events + [e]) == AllOps(events) + Ops(e)
    ensures Changes(events + [e]) == Changes(events) + [Change(e)]
  {
    SnocLast(events, e);
  }

  lemma {:induction false} AllOpsConcat(a: seq<FileEvent>, b: seq<FileEvent>)
    ensures AllOps(a + b) == AllOps(a) + AllOps(b)
  {
    if b == [] {
      EmptyRight(a);
    } else {
      ConcatLast(a, b);
      AllOpsConcat(a, b[..|b| - 1]);
      Assoc(AllOps(a), AllOps(b[..|b| - 1]), Ops(b[|b| - 1]));
    }
  }

  /** Coalescing more events on top of those already drained. */
  lemma CoalesceMore(drained: seq<FileEvent>, batch: seq<FileEvent>)
    ensures InsertAll(Coalesced(AllOps(drained)), AllOps(batch)) == Coalesced(AllOps(drained + batch))
  {
    AllOpsConcat(drained, batch);
    InsertAllConcat(map[], AllOps(drained), AllOps(batch));
  }

  lemma SingleEvent(e: FileEvent)
    ensures AllOps([e]) == Ops(e) && Changes([e]) == [Change(e)]
  {
    AllOpsMore([], e);
    assert [] + [e] == [e] && [] + Ops(e) == Ops(e);
  }

  method AddAll(coalesced: CoalescedEvents, batch: seq<FileEvent>)
    modifies coalesced
    ensures coalesced.events == InsertAll(old(coalesced.events), AllOps(batch))
  {
    for k := 0 to |batch|
      invariant coalesced.events == InsertAll(old(coalesced.events), AllOps(batch[..k]))
    {
      AllOpsMore(batch[..k], batch[k]);
      assert batch[..k + 1] == batch[..k] + [batch[k]];
      InsertAllConcat(old(coalesced.events), AllOps(batch[..k]), Ops(batch[k]));
      coalesced.Add(batch[k]);
    }
    assert batch[..|batch|] == batch;
  }

  /** The commands before `pos` are those of `from`, then the drained events. */
  ghost predicate Drained(cs: seq<Command>, pos: nat, from: nat, drained: seq<FileEvent>) {
    from <= pos <= |cs| && Stream(cs, pos) == Stream(cs, from) + Changes(drained)
  }

  datatype Polled = Nothing | Events(batch: seq<FileEvent>) | Interrupt(command: Command)

  predicate HoldsEvents(c: Command, batch: seq<FileEvent>) {
    c == Batch(batch) || (|batch| == 1 && c == Event(batch[0]))
  }

  lemma EventTokens(c: Command, batch: seq<FileEvent>)
    requires HoldsEvents(c, batch)
    ensures Tokens(c) == Changes(batch)
  {
    if c.Event? {
      SingleEvent(batch[0]);
      assert batch == [batch[0]];
    }
  }

  ghost predicate NoShutdown(cs: seq<Command>, lo: nat, hi: nat) {
    forall k :: lo <= k < hi <= |cs| ==> !cs[k].Shutdown?
  }

  /** `m` is what the drained events coalesce to; the quantifier keeps the
      definition folded until `OpenHolds` asks for it. */
  ghost predicate Holds(m: map<Path, Kind>, drained: seq<FileEvent>) {
    forall d {:trigger Is(d, drained)} :: Is(d, drained) ==> m == Coalesced(AllOps(d))
  }

  lemma OpenHolds(m: map<Path, Kind>, drained: seq<FileEvent>)
    ensures Holds(m, drained) <==> m == Coalesced(AllOps(drained))
  {
    assert Is(drained, drained);
  }

  /** Everything received since `from` is `drained`, without a shutdown, and `m`
      is what it coalesces to. */
  ghost predicate DrainFacts(cs: seq<Command>, pos: nat, from: nat, m: map<Path, Kind>, drained: seq<FileEvent>) {
    Drained(cs, pos, from, drained) && NoShutdown(cs, from, pos) && m == Coalesced(AllOps(drained))
  }

  /** `DrainFacts`, folded in the same way as `Holds`. */
  ghost predicate DrainOk(cs: seq<Command>, pos: nat, from: nat, m: map<Path, Kind>, drained: seq<FileEvent>) {
    from < pos <= |cs| && forall d {:trigger Is(d, drained)} :: Is(d, drained) ==> DrainFacts(cs, pos, from, m, d)
  }

  lemma OpenDrainOk(cs: seq<Command>, pos: nat, from: nat, m: map<Path, Kind>, drained: seq<FileEvent>)
    requires from < pos <= |cs|
    ensures DrainOk(cs, pos, from, m, drained) <==> DrainFacts(cs, pos, from, m, drained)
  {
    assert Is(drained, drained);
  }

  lemma DrainFirst(cs: seq<Command>, from: nat, first: FileEvent)
    requires from < |cs| && cs[from] == Event(first)
    ensures DrainOk(cs, from + 1, from, InsertAll(map[], AllOps([first])), [first])
  {
    EventTokens(cs[from], [first]);
    OpenDrainOk(cs, from + 1, from, Coalesced(AllOps([first])), [first]);
  }

  lemma DrainedMore(cs: seq<Command>, pos: nat, from: nat, drained: seq<FileEvent>, batch: seq<FileEvent>)
    requires Drained(cs, pos, from, drained) && pos < |cs| && HoldsEvents(cs[pos], batch)
    ensures Drained(cs, pos + 1, from, drained + batch)
  {
    EventTokens(cs[pos], batch);
    ChangesConcat(drained, batch);
    Assoc(Stream(cs, from), Changes(drained), Changes(batch));
  }

  lemma NoShutdownMore(cs: seq<Command>, pos: nat, from: nat, batch: seq<FileEvent>)
    requires pos < |cs| && NoShutdown(cs, from, pos) && HoldsEvents(cs[pos], batch)
    ensures NoShutdown(cs, from, pos + 1)
  {}

  lemma FactsMore(cs: seq<Command>, pos: nat, from: nat, m: map<Path, Kind>, drained: seq<FileEvent>, batch: seq<FileEvent>)
    requires pos < |cs| && DrainFacts(cs, pos, from, m, drained) && HoldsEvents(cs[pos], batch)
    ensures DrainFacts(cs, pos + 1, from, InsertAll(m, AllOps(batch)), drained + batch)
  {
    DrainedMore(cs, pos, from, drained, batch);
    NoShutdownMore(cs, pos, from, batch);
    CoalesceMore(drained, batch);
  }

  /** One more command of file events in the drained part. */
  lemma DrainMore(cs: seq<Command>, pos: nat, from: nat, m: map<Path, Kind>, drained: seq<FileEvent>, batch: seq<FileEvent>)
    requires pos < |cs| && DrainOk(cs, pos, from, m, drained) && HoldsEvents(cs[pos], batch)
    ensures DrainOk(cs, pos + 1, from, InsertAll(m, AllOps(batch)), drained + batch)
  {
    OpenDrainOk(cs, pos, from, m, drained);
    FactsMore(cs, pos, from, m, drained, batch);
    OpenDrainOk(cs, pos + 1, from, InsertAll(m, AllOps(batch)), drained + batch);
  }

  // ------------------------------------------------------ the index

  /** The index and the ghost record of what was done to it. */
  class Worker {
    const world: World
    const rebuilt: Index
    var index: Index
    ghost const start: Index
    ghost var trace: seq<Effect>

    constructor (world: World, rebuilt: Index, index: Index)
      ensures Valid()
      ensures this.world == world && this.rebuilt == rebuilt && this.index == index && start == index && trace == []
    {
      this.world, this.rebuilt, this.index, start := world, rebuilt, index, index;
      trace := [];
      new;
      OpenValid();
    }

    /** The trace leads from the first index to the present one; folded in the
        same way as `Holds`. */
    ghost predicate Valid()
      reads this
    {
      forall t {:trigger Is(t, trace)} :: Is(t, trace) ==> TraceFrom(world, rebuilt, start, t, index)
    }

    lemma OpenValid()
      ensures Valid() <==> TraceFrom(world, rebuilt, start, trace, index)
    {
      assert Is(trace, trace);
    }

    /** Append an effect that starts from the index `before`. */
    ghost method Record(e: Effect, before: Index)
      requires TraceFrom(world, rebuilt, start, trace, before)
      requires e.before == before && e.after == index && EffectOk(world, rebuilt, e)
      modifies this`trace
      ensures Valid() && Flattened(trace) == Flattened(old(trace)) + EffectTokens(e)
    {
      TraceMore(world, rebuilt, start, trace, before, e);
      trace := trace + [e];
      OpenValid();
    }

    /** Apply the survivors in whatever order the map yields them. */
    method ApplyEntries(events: map<Path, Kind>)
      modifies this`index
      ensures AppliedInSomeOrder(world, old(index), events, index)
    {
      var rest := events;
      ghost var order: seq<Path> := [];
      while rest != map[]
        invariant forall p :: p in rest <==> p in events && p !in order
        invariant forall p :: p in rest ==> rest[p] == events[p]
        invariant forall p :: p in order ==> p in events
        invariant Unrepeated(order)
        invariant index == ApplyInOrder(world, old(index), events, order)
        decreases rest.Keys
      {
        var p :| p in rest;
        var kind := rest[p];
        ghost var was := index;
        if ShouldIndex(world, p) {
          if kind == Removed {
            index := index - {Key(world, p)};
          } else {
            index := Reindexed(world, index, p);
          }
        }
        assert index == ApplyOp(world, was, Op(p, kind));
        SnocLast(order, p);
        order := order + [p];
        rest := rest - {p};
      }
      assert IsOrder(order, events);
    }

    method ApplyCoalesced(coalesced: map<Path, Kind>, ghost events: seq<FileEvent>)
      requires Valid() && Holds(coalesced, events)
      modifies this
      ensures Valid() && Flattened(trace) == Flattened(old(trace)) + Changes(events)
    {
      OpenHolds(coalesced, events);
      OpenValid();
      ApplyEntries(coalesced);
      Record(Effect.Flush(events, old(index), index), old(index));
    }

    /** Handle a command that is not a file event. */
    method HandleOther(c: Command)
      requires Valid() && !c.Event? && !c.Batch?
      modifies this
      ensures Valid() && Flattened(trace) == Flattened(old(trace)) + [Other(c)]
    {
      OpenValid();
      match c {
        case Rebuild =>
          index := rebuilt;
        case BackgroundRefresh(stale, deleted) =>
          Refresh(stale, deleted);
        case _ =>
      }
      Record(Handle(c, old(index), index), old(index));
    }

    method Refresh(stale: seq<Path>, deleted: seq<Path>)
      modifies this`index
      ensures index == RefreshStale(world, RefreshDeleted(world, old(index), deleted), stale)
    {
      for k := 0 to |deleted|
        invariant index == RefreshDeleted(world, old(index), deleted[..k])
      {
        assert deleted[..k + 1][..k] == deleted[..k];
        index := index - {deleted[k]};
      }
      assert deleted[..|deleted|] == deleted;
      ghost var cleared := index;
      for k := 0 to |stale|
        invariant index == RefreshStale(world, cleared, stale[..k])
      {
        assert stale[..k + 1][..k] == stale[..k];
        if world.supported(stale[k]) {
          index := Reindexed(world, index, stale[k]);
        }
      }
      assert stale[..|stale|] == stale;
    }
  }

  // ------------------------------------------------------ the loop

  /** Everything received is drained once a drain has found `next`, but for the
      last command when that is not file events. */
  ghost predicate DrainedTo(next: Polled, cs: seq<Command>, pos: nat, from: nat, m: map<Path, Kind>,
                            drained: seq<FileEvent>) {
    if next.Interrupt? then
      && 0 < pos <= |cs| && cs[pos - 1] == next.command && !next.command.Event? && !next.command.Batch?
      && DrainOk(cs, pos - 1, from, m, drained)
    else DrainOk(cs, pos, from, m, drained)
  }

  /** Where the drained commands end when `other` was received after them. */
  function UpTo(other: Option<Command>, pos: nat): int {
    if other.Some? then pos - 1 else pos
  }

  lemma DrainEnds(next: Polled, cs: seq<Command>, before: nat, pos: nat, from: nat, m: map<Path, Kind>,
                  drained: seq<FileEvent>)
    requires DrainOk(cs, before, from, m, drained)
    requires next.Nothing? ==> pos == before
    requires next.Interrupt? ==>
               pos == before + 1 && before < |cs| && cs[before] == next.command
               && !next.command.Event? && !next.command.Batch?
    requires !next.Events?
    ensures DrainedTo(next, cs, pos, from, m, drained)
  {}

  /** Coalesce one more batch on top of the drained events. */
  method AddDrained(events: CoalescedEvents, next: Polled, ghost cs: seq<Command>, ghost pos: nat,
              ghost from: nat, ghost drained: seq<FileEvent>)
    requires next.Events? && pos < |cs| && HoldsEvents(cs[pos], next.batch)
    requires DrainOk(cs, pos, from, events.events, drained)
    modifies events
    ensures DrainedTo(next, cs, pos + 1, from, events.events, drained + next.batch)
  {
    DrainMore(cs, pos, from, events.events, drained, next.batch);
    AddAll(events, next.batch);
  }

  /** The receiving end of the channel: commands in sending order, and for each
      position whether it has been sent by the time a drain asks for it. */
  class Receiver {
    const commands: seq<Command>
    const ready: nat -> bool
    var pos: nat

    constructor (commands: seq<Command>, ready: nat -> bool)
      ensures this.commands == commands && this.ready == ready && pos == 0
    {
      this.commands, this.ready, pos := commands, ready, 0;
    }

    /** Wait for the next command; `None` once every sender is gone. */
    method Recv() returns (c: Option<Command>)
      requires pos <= |commands|
      modifies this
      ensures old(pos) == |commands| ==> c.None? && pos == old(pos)
      ensures old(pos) < |commands| ==> c == Some(commands[old(pos)]) && pos == old(pos) + 1
    {
      if pos == |commands| {
        return None;
      }
      c := Some(commands[pos]);
      pos := pos + 1;
    }

    /** The next command if it is already there. */
    method TryRecv() returns (c: Option<Command>)
      requires pos <= |commands|
      modifies this`pos
      ensures c.Some? <==> old(pos) < |commands| && ready(old(pos))
      ensures c.Some? ==> c.value == commands[old(pos)] && pos == old(pos) + 1
      ensures c.None? ==> pos == old(pos)
    {
      if pos == |commands| || !ready(pos) {
        return None;
      }
      c := Some(commands[pos]);
      pos := pos + 1;
    }

    /** What a drain finds next. */
    method Poll() returns (r: Polled)
      requires pos <= |commands|
      modifies this`pos
      ensures r.Nothing? ==> pos == old(pos)
      ensures !r.Nothing? ==> old(pos) < |commands| && pos == old(pos) + 1
      ensures r.Events? ==> HoldsEvents(commands[old(pos)], r.batch)
      ensures r.Interrupt? ==> commands[old(pos)] == r.command && !r.command.Event? && !r.command.Batch?
    {
      var c := TryRecv();
      if c.None? {
        return Nothing;
      }
      match c.value {
        case Event(e) => r := Events([e]);
        case Batch(es) => r := Events(es);
        case _ => r := Interrupt(c.value);
      }
    }

    /** One turn of the draining loop: coalesce one more command of events, or stop. */
    method DrainOne(events: CoalescedEvents, ghost from: nat, ghost drained: seq<FileEvent>)
      returns (next: Polled, ghost more: seq<FileEvent>)
      requires pos <= |commands| && DrainOk(commands, pos, from, events.events, drained)
      modifies this`pos, events
      ensures old(pos) <= pos <= |commands| && (next.Events? ==> old(pos) < pos)
      ensures DrainedTo(next, commands, pos, from, events.events, more)
    {
      ghost var before := pos;
      next := Poll();
      if next.Events? {
        AddDrained(events, next, commands, before, from, drained);
        more := drained + next.batch;
      } else {
        DrainEnds(next, commands, before, pos, from, events.events, drained);
        more := drained;
      }
    }

    /** Drain file events until the channel is empty or another command comes. */
    method Drain(events: CoalescedEvents, ghost from: nat, ghost first: seq<FileEvent>)
      returns (other: Option<Command>, ghost drained: seq<FileEvent>)
      requires pos <= |commands| && DrainOk(commands, pos, from, events.events, first)
      modifies this`pos, events
      ensures old(pos) <= pos <= |commands|
      ensures 0 <= UpTo(other, pos) && DrainOk(commands, UpTo(other, pos), from, events.events, drained)
      ensures other.Some? ==> commands[pos - 1] == other.value && !other.value.Event? && !other.value.Batch?
    {
      var next;
      next, drained := DrainOne(events, from, first);
      while next.Events?
        invariant old(pos) <= pos <= |commands|
        invariant DrainedTo(next, commands, pos, from, events.events, drained)
        decreases |commands| - pos, next.Events?
      {
        next, drained := DrainOne(events, from, drained);
      }
      match next {
        case Interrupt(command) => other := Some(command);
        case _ => other := None;
      }
    }
  }

  method StartCoalescing(first: FileEvent, ghost cs: seq<Command>, ghost from: nat)
    returns (events: CoalescedEvents, ghost drained: seq<FileEvent>)
    requires from < |cs| && cs[from] == Event(first)
    ensures fresh(events) && DrainOk(cs, from + 1, from, events.events, drained)
  {
    events := new CoalescedEvents();
    AddAll(events, [first]);
    drained := [first];
    DrainFirst(cs, from, first);
  }

  /** What has been received so far is what has been done, in order; folded in
      the same way as `Holds`. */
  ghost predicate CaughtUp(trace: seq<Effect>, cs: seq<Command>, pos: nat) {
    pos <= |cs| && forall t {:trigger Is(t, trace)} :: Is(t, trace) ==> Flattened(t) == Stream(cs, pos)
  }

  lemma OpenCaughtUp(trace: seq<Effect>, cs: seq<Command>, pos: nat)
    ensures CaughtUp(trace, cs, pos) <==> pos <= |cs| && Flattened(trace) == Stream(cs, pos)
  {
    assert Is(trace, trace);
  }

  /** No shutdown before the last command received, and that one only at the end. */
  ghost predicate StoppedAt(cs: seq<Command>, lo: nat, pos: nat, goOn: bool) {
    && lo < pos <= |cs|
    && (if goOn then NoShutdown(cs, lo, pos) else NoShutdown(cs, lo, pos - 1) && cs[pos - 1].Shutdown?)
  }

  /** Everything from `lo` up to `upTo` was file events, and has been flushed. */
  ghost predicate FlushedTo(trace: seq<Effect>, cs: seq<Command>, lo: nat, upTo: nat) {
    lo < upTo && CaughtUp(trace, cs, upTo) && NoShutdown(cs, lo, upTo)
  }

  /** Flush what was drained. */
  method FlushDrained(worker: Worker, events: CoalescedEvents, ghost cs: seq<Command>, ghost upTo: nat, ghost from: nat,
               ghost drained: seq<FileEvent>)
    requires worker.Valid() && CaughtUp(worker.trace, cs, from) && DrainOk(cs, upTo, from, events.events, drained)
    modifies worker
    ensures worker.Valid() && FlushedTo(worker.trace, cs, from, upTo)
  {
    OpenCaughtUp(worker.trace, cs, from);
    OpenDrainOk(cs, upTo, from, events.events, drained);
    OpenHolds(events.events, drained);
    worker.ApplyCoalesced(events.events, drained);
    OpenCaughtUp(worker.trace, cs, upTo);
  }

  /** A file event: drain and flush, leaving the command that ended the drain. */
  method DrainAndFlush(worker: Worker, receiver: Receiver, event: FileEvent) returns (other: Option<Command>)
    requires worker.Valid() && 0 < receiver.pos <= |receiver.commands|
    requires receiver.commands[receiver.pos - 1] == Event(event)
    requires CaughtUp(worker.trace, receiver.commands, receiver.pos - 1)
    modifies worker, receiver
    ensures worker.Valid() && old(receiver.pos) <= receiver.pos <= |receiver.commands|
    ensures 0 <= UpTo(other, receiver.pos)
    ensures FlushedTo(worker.trace, receiver.commands, old(receiver.pos) - 1, UpTo(other, receiver.pos))
    ensures other.Some? ==>
              receiver.commands[receiver.pos - 1] == other.value && !other.value.Event? && !other.value.Batch?
  {
    ghost var commands, from := receiver.commands, receiver.pos - 1;
    var events;
    ghost var drained;
    events, drained := StartCoalescing(event, commands, from);
    other, drained := receiver.Drain(events, from, drained);
    FlushDrained(worker, events, commands, UpTo(other, receiver.pos), from, drained);
  }

  method ProcessBatch(worker: Worker, events: seq<FileEvent>, ghost cs: seq<Command>, ghost at: nat)
    requires worker.Valid() && at < |cs| && cs[at] == Batch(events) && CaughtUp(worker.trace, cs, at)
    modifies worker
    ensures worker.Valid() && CaughtUp(worker.trace, cs, at + 1)
  {
    OpenCaughtUp(worker.trace, cs, at);
    var coalesced := new CoalescedEvents();
    AddAll(coalesced, events);
    OpenHolds(coalesced.events, events);
    worker.ApplyCoalesced(coalesced.events, events);
    OpenCaughtUp(worker.trace, cs, at + 1);
  }

  method ProcessOther(worker: Worker, command: Command, ghost cs: seq<Command>, ghost at: nat)
    requires worker.Valid() && at < |cs| && cs[at] == command && CaughtUp(worker.trace, cs, at)
    requires !command.Event? && !command.Batch?
    modifies worker
    ensures worker.Valid() && CaughtUp(worker.trace, cs, at + 1)
  {
    OpenCaughtUp(worker.trace, cs, at);
    worker.HandleOther(command);
    OpenCaughtUp(worker.trace, cs, at + 1);
  }

  /** Process one received command; false once a shutdown was handled. */
  method ProcessCommandCoalesced(worker: Worker, receiver: Receiver, command: Command) returns (goOn: bool)
    requires worker.Valid() && 0 < receiver.pos <= |receiver.commands|
    requires receiver.commands[receiver.pos - 1] == command
    requires CaughtUp(worker.trace, receiver.commands, receiver.pos - 1)
    modifies worker, receiver
    ensures worker.Valid() && CaughtUp(worker.trace, receiver.commands, receiver.pos)
    ensures old(receiver.pos) <= receiver.pos
    ensures StoppedAt(receiver.commands, old(receiver.pos) - 1, receiver.pos, goOn)
    decreases command.Event?
  {
    goOn := true;
    if command.Event? {
      var other := DrainAndFlush(worker, receiver, command.event);
      if other.Some? {
        goOn := ProcessCommandCoalesced(worker, receiver, other.value);
      }
    } else if command.Batch? {
      ProcessBatch(worker, command.events, receiver.commands, receiver.pos - 1);
    } else {
      ProcessOther(worker, command, receiver.commands, receiver.pos - 1);
      goOn := !command.Shutdown?;
    }
  }

  /** Receive and process until shutdown or until every sender is gone. Whatever
      the moments at which senders append, the loop does exactly what the
      commands up to the first shutdown ask for, in order. */
  method RunLoop(worker: Worker, receiver: Receiver)
    requires worker.Valid() && receiver.pos == 0 && worker.trace == []
    modifies worker, receiver
    ensures TraceFrom(worker.world, worker.rebuilt, worker.start, worker.trace, worker.index)
    ensures Flattened(worker.trace) == Stream(receiver.commands, UpToShutdown(receiver.commands))
  {
    var goOn := true;
    OpenCaughtUp(worker.trace, receiver.commands, 0);
    while goOn
      invariant worker.Valid() && CaughtUp(worker.trace, receiver.commands, receiver.pos)
      invariant if goOn then NoShutdown(receiver.commands, 0, receiver.pos)
                else StoppedAt(receiver.commands, 0, receiver.pos, false)
      decreases |receiver.commands| - receiver.pos, goOn
    {
      var c := receiver.Recv();
      if c.None? {
        break;
      }
      goOn := ProcessCommandCoalesced(worker, receiver, c.value);
    }
    FirstShutdown(receiver.commands, receiver.pos);
    OpenCaughtUp(worker.trace, receiver.commands, receiver.pos);
    worker.OpenValid();
  }

  lemma FirstShutdown(cs: seq<Command>, pos: nat)
    requires pos <= |cs|
    requires (pos == |cs| && NoShutdown(cs, 0, pos)) || StoppedAt(cs, 0, pos, false)
    ensures UpToShutdown(cs) == pos
  {}
}
