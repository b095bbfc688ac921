/** A conversation that the repair passes rewrite in place, each pass as the
    loop the program runs. */
module History {
  import opened Sequences
  import opened Conversation
  import opened Repair
  import opened Displaced

  datatype RepairReport = RepairReport(duplicatesRemoved: nat, strippedIds: seq<string>, syntheticInserted: nat) {
    predicate Changed() {
      duplicatesRemoved > 0 || strippedIds != [] || syntheticInserted > 0
    }
  }

  // ------------------------------------------------------ lemmas for the loops

  lemma LeadingResult(p: Pass, x: Item, run: seq<Item>, rest: seq<Item>)
    requires x.ToolResult? && AllResults(run) && StartsTurn(rest) && (p.DedupPass? || p.BackfillPass?)
    ensures Apply(p, [x] + (run + rest)) == [x] + Apply(p, run + rest)
  {
    ApplyLead(p, run, rest);
    ApplyLead(p, [x] + run, rest);
    Assoc([x], run, rest);
    Assoc([x], run, ApplyTurns(p, rest));
  }

  lemma LeadingOther(p: Pass, x: Item, run: seq<Item>, rest: seq<Item>)
    requires !x.ToolResult? && !IsCaller(x) && AllResults(run) && StartsTurn(rest)
    requires p.DedupPass? || p.BackfillPass?
    ensures Apply(p, [x] + (run + rest)) == [x] + Apply(p, run + rest)
  {
    ApplyLead(p, run, rest);
    ApplyTurnsCons(p, x, run, rest);
    Assoc([x], run, rest);
    Assoc([x], run, ApplyTurns(p, rest));
    ApplyTurnsOnly(p, [x] + run + rest);
  }

  lemma ApplyTurnsOnly(p: Pass, s: seq<Item>)
    requires StartsTurn(s) && (p.DedupPass? || p.BackfillPass?)
    ensures Apply(p, s) == ApplyTurns(p, s)
  {
    ApplyLead(p, [], s);
    assert [] + s == s;
  }

  /** Items that are not callers are stepped over one at a time. */
  lemma SkipItem(p: Pass, s: seq<Item>)
    requires s != [] && !IsCaller(s[0]) && (p.DedupPass? || p.BackfillPass?)
    ensures Apply(p, s) == [s[0]] + Apply(p, s[1..])
  {
    var x, t := s[0], s[1..];
    var n := RunLen(t);
    var run, rest := t[..n], t[n..];
    Split(t, n);
    Front(s);
    if x.ToolResult? {
      LeadingResult(p, x, run, rest);
    } else {
      LeadingOther(p, x, run, rest);
    }
  }

  /** A caller is stepped over together with its run. */
  lemma SkipTurn(p: Pass, s: seq<Item>, run: seq<Item>, rest: seq<Item>)
    requires s != [] && IsCaller(s[0]) && (p.DedupPass? || p.BackfillPass?)
    requires s == [s[0]] + run + rest && AllResults(run) && StartsTurn(rest)
    ensures Apply(p, s) == [s[0]] + NewRun(p, s[0], run) + Apply(p, rest)
  {
    ApplyTurnsOnly(p, s);
    ApplyTurnsOnly(p, rest);
    ApplyTurnsCons(p, s[0], run, rest);
  }

  /** Replacing the run in place by its deduplicated form does not change what
      the rest of the pass produces. */
  lemma DedupTwice(s: seq<Item>, run: seq<Item>, rest: seq<Item>)
    requires s != [] && IsCaller(s[0])
    requires s == [s[0]] + run + rest && AllResults(run) && StartsTurn(rest)
    ensures Apply(DedupPass, [s[0]] + KeepLast(run) + rest) == Apply(DedupPass, s)
  {
    KeepLastFacts(run);
    KeepLastFacts(KeepLast(run));
    SkipTurn(DedupPass, s, run, rest);
    SkipTurn(DedupPass, [s[0]] + KeepLast(run) + rest, KeepLast(run), rest);
  }

  /** What a pass that has reached position `i` still has to produce. */
  function Progress(p: Pass, s: seq<Item>, i: nat): seq<Item>
    requires i <= |s|
  {
    s[..i] + Apply(p, s[i..])
  }

  lemma ProgressEnds(p: Pass, s: seq<Item>)
    ensures Progress(p, s, 0) == Apply(p, s)
    ensures p.DedupPass? || p.BackfillPass? ==> Progress(p, s, |s|) == s
  {
    assert s[0..] == s;
  }

  lemma ProgressItem(p: Pass, s: seq<Item>, i: nat)
    requires i < |s| && !IsCaller(s[i]) && (p.DedupPass? || p.BackfillPass?)
    ensures Progress(p, s, i + 1) == Progress(p, s, i)
  {
    var rest := s[i..];
    SkipItem(p, rest);
    Grow(s, i);
    assert rest[1..] == s[i + 1..];
    Assoc(s[..i], [s[i]], Apply(p, s[i + 1..]));
  }

  lemma TurnSlices(s: seq<Item>, i: nat, end: nat)
    requires i < end <= |s|
    ensures s[i..] == [s[i]] + s[i + 1..end] + s[end..]
    ensures s[..end] == s[..i] + ([s[i]] + s[i + 1..end])
  {}

  /** A turn whose run has no duplicates is stepped over unchanged. */
  lemma ProgressCleanTurn(s: seq<Item>, i: nat, end: nat)
    requires i < end <= |s| && IsCaller(s[i])
    requires AllResults(s[i + 1..end]) && StartsTurn(s[end..])
    requires KeepLast(s[i + 1..end]) == s[i + 1..end]
    ensures Progress(DedupPass, s, end) == Progress(DedupPass, s, i)
  {
    var turn := [s[i]] + s[i + 1..end];
    TurnSlices(s, i, end);
    SkipTurn(DedupPass, s[i..], s[i + 1..end], s[end..]);
    Assoc(s[..i], turn, Apply(DedupPass, s[end..]));
  }

  lemma SameFront(a: seq<Item>, x: Item, b: seq<Item>, c: seq<Item>)
    ensures var t := a + [x] + b + c;
            t[..|a|] == a && t[|a|..] == [x] + b + c
  {}

  /** Deduplicating the run in place keeps what is still to be produced. */
  lemma ProgressDedup(s: seq<Item>, t: seq<Item>, i: nat, end: nat)
    requires i < end <= |s| && IsCaller(s[i])
    requires AllResults(s[i + 1..end]) && StartsTurn(s[end..])
    requires t == Treated(s, i + 1, end)
    ensures i < |t| && Progress(DedupPass, t, i) == Progress(DedupPass, s, i)
  {
    TurnSlices(s, i, end);
    DedupTwice(s[i..], s[i + 1..end], s[end..]);
    Grow(s, i);
    SameFront(s[..i], s[i], KeepLast(s[i + 1..end]), s[end..]);
  }

  // ------------------------------------------------------ removal, in place

  /** The items once the positions from `idx` on have been treated. */
  function Treated(was: seq<Item>, idx: nat, end: nat): seq<Item>
    requires idx <= end <= |was| && AllResults(was[idx..end])
  {
    was[..idx] + KeepLast(was[idx..end]) + was[end..]
  }

  lemma TreatOne(was: seq<Item>, idx: nat, end: nat)
    requires idx < end <= |was| && ResultsBetween(was, idx, end)
    ensures AllResults(was[idx..end]) && AllResults(was[idx + 1..end])
    ensures |Treated(was, idx + 1, end)| > idx
    ensures Treated(was, idx, end) ==
            if Repeated(was, idx, end)
            then Treated(was, idx + 1, end)[..idx] + Treated(was, idx + 1, end)[idx + 1..]
            else Treated(was, idx + 1, end)
  {
    var run := was[idx..end];
    RunBetween(was, idx, end);
    RepeatedIsLaterId(was, idx, end);
    Tail(was[idx], was[idx + 1..end]);
    assert run == [was[idx]] + was[idx + 1..end];
    TreatedSplit(was, idx, end, KeepLast(was[idx + 1..end]));
  }

  lemma TreatedSplit(was: seq<Item>, idx: nat, end: nat, kept: seq<Item>)
    requires idx < end <= |was|
    ensures var after := was[..idx + 1] + kept + was[end..];
            && after[..idx] + after[idx + 1..] == was[..idx] + kept + was[end..]
            && after == was[..idx] + ([was[idx]] + kept) + was[end..]
  {}

  lemma {:induction false} NothingMarked(s: seq<Item>, start: nat, end: nat)
    requires start <= end <= |s| && ResultsBetween(s, start, end)
    requires forall k: nat :: start <= k < end ==> !Repeated(s, k, end)
    ensures AllResults(s[start..end]) && KeepLast(s[start..end]) == s[start..end]
    decreases end - start
  {
    RunBetween(s, start, end);
    if start < end {
      var run := s[start..end];
      NothingMarked(s, start + 1, end);
      RepeatedIsLaterId(s, start, end);
      Tail(s[start], s[start + 1..end]);
      assert run == [s[start]] + s[start + 1..end];
    }
  }

  // ------------------------------------------------------ splicing

  ghost predicate UpTo(repairs: seq<(nat, seq<Item>)>, i: nat) {
    forall r :: r in repairs ==> r.0 <= i
  }

  /** Inserting each block at its position, last block first. */
  ghost function SpliceAll(s: seq<Item>, repairs: seq<(nat, seq<Item>)>): seq<Item>
    requires UpTo(repairs, |s|)
    decreases |repairs|
  {
    if repairs == [] then s
    else
      var (at, block) := repairs[|repairs| - 1];
      assert repairs[|repairs| - 1] in repairs;
      SpliceAll(s[..at] + block + s[at..], repairs[..|repairs| - 1])
  }

  lemma {:induction false} SplicePrefix(a: seq<Item>, b: seq<Item>, repairs: seq<(nat, seq<Item>)>)
    requires UpTo(repairs, |a|)
    ensures SpliceAll(a + b, repairs) == SpliceAll(a, repairs) + b
    decreases |repairs|
  {
    if repairs != [] {
      var (at, block) := repairs[|repairs| - 1];
      assert repairs[|repairs| - 1] in repairs;
      assert (a + b)[..at] + block + (a + b)[at..] == (a[..at] + block + a[at..]) + b;
      SplicePrefix(a[..at] + block + a[at..], b, repairs[..|repairs| - 1]);
    }
  }

  /** One more block at the end of the scanned part. */
  lemma SpliceMore(s: seq<Item>, block: seq<Item>, repairs: seq<(nat, seq<Item>)>)
    requires UpTo(repairs, |s|)
    ensures SpliceAll(s, repairs + [(|s|, block)]) == SpliceAll(s, repairs) + block
  {
    var more := repairs + [(|s|, block)];
    assert more[..|more| - 1] == repairs;
    assert s[..|s|] + block + s[|s|..] == s + block;
    SplicePrefix(s, block, repairs);
  }

  /** The repaired scanned part followed by what is still to be produced. */
  ghost function Backfilled(p: Pass, s: seq<Item>, i: nat, repairs: seq<(nat, seq<Item>)>): seq<Item>
    requires i <= |s| && UpTo(repairs, i)
  {
    SpliceAll(s[..i], repairs) + Apply(p, s[i..])
  }

  lemma BackfilledItem(p: Pass, s: seq<Item>, i: nat, repairs: seq<(nat, seq<Item>)>)
    requires i < |s| && !IsCaller(s[i]) && p.BackfillPass?
    requires UpTo(repairs, i)
    ensures UpTo(repairs, i + 1) && Backfilled(p, s, i + 1, repairs) == Backfilled(p, s, i, repairs)
  {
    var rest := s[i..];
    SkipItem(p, rest);
    Grow(s, i);
    assert rest[1..] == s[i + 1..];
    SplicePrefix(s[..i], [s[i]], repairs);
    Assoc(SpliceAll(s[..i], repairs), [s[i]], Apply(p, s[i + 1..]));
  }

  lemma BackfilledEnds(p: Pass, s: seq<Item>, repairs: seq<(nat, seq<Item>)>)
    requires p.BackfillPass? && UpTo(repairs, |s|)
    ensures Backfilled(p, s, 0, []) == Apply(p, s)
    ensures Backfilled(p, s, |s|, repairs) == SpliceAll(s, repairs)
  {
    assert s[0..] == s && s[..|s|] == s && s[|s|..] == [];
  }

  lemma Regroup(a: seq<Item>, b: seq<Item>, c: seq<Item>, d: seq<Item>, e: seq<Item>)
    ensures a + (b + (c + d) + e) == a + (b + c) + d + e
  {}

  /** A turn's share of the specification. */
  lemma AppliedTurn(p: Pass, s: seq<Item>, i: nat, end: nat, block: seq<Item>)
    requires i < end <= |s| && IsCaller(s[i]) && p.BackfillPass?
    requires AllResults(s[i + 1..end]) && StartsTurn(s[end..])
    requires block == Synthetic(s[i].calls, ResultIds(s[i + 1..end]), p.reason)
    ensures Apply(p, s[i..]) == [s[i]] + (s[i + 1..end] + block) + Apply(p, s[end..])
  {
    TurnSlices(s, i, end);
    SkipTurn(p, s[i..], s[i + 1..end], s[end..]);
  }

  /** A turn's share of the splicing, without and with its block. */
  lemma SplicedTurn(s: seq<Item>, i: nat, end: nat, block: seq<Item>, repairs: seq<(nat, seq<Item>)>)
    requires i < end <= |s| && UpTo(repairs, i)
    ensures UpTo(repairs, end) && UpTo(repairs + [(end, block)], end)
    ensures var scanned := SpliceAll(s[..i], repairs) + ([s[i]] + s[i + 1..end]);
            && SpliceAll(s[..end], repairs) == scanned
            && SpliceAll(s[..end], repairs + [(end, block)]) == scanned + block
  {
    assert s[..end] == s[..i] + ([s[i]] + s[i + 1..end]);
    SplicePrefix(s[..i], [s[i]] + s[i + 1..end], repairs);
    SpliceMore(s[..end], block, repairs);
  }

  lemma BackfilledTurn(p: Pass, s: seq<Item>, i: nat, end: nat, block: seq<Item>, repairs: seq<(nat, seq<Item>)>)
    requires i < end <= |s| && IsCaller(s[i]) && p.BackfillPass?
    requires AllResults(s[i + 1..end]) && StartsTurn(s[end..])
    requires block == Synthetic(s[i].calls, ResultIds(s[i + 1..end]), p.reason)
    requires UpTo(repairs, i)
    ensures UpTo(repairs, end) && UpTo(repairs + [(end, block)], end)
    ensures block == [] ==> Backfilled(p, s, i, repairs) == Backfilled(p, s, end, repairs)
    ensures Backfilled(p, s, i, repairs) == Backfilled(p, s, end, repairs + [(end, block)])
  {
    var run, before := s[i + 1..end], SpliceAll(s[..i], repairs);
    AppliedTurn(p, s, i, end, block);
    SplicedTurn(s, i, end, block, repairs);
    Regroup(before, [s[i]], run, block, Apply(p, s[end..]));
    EmptyRight(before + ([s[i]] + run));
  }

  // ------------------------------------------------------ scanning one run

  ghost predicate ResultsBetween(items: seq<Item>, start: nat, end: nat)
    requires start <= end <= |items|
  {
    forall k :: start <= k < end ==> items[k].ToolResult?
  }

  lemma RunBetween(items: seq<Item>, start: nat, end: nat)
    requires start <= end <= |items|
    ensures ResultsBetween(items, start, end) <==> AllResults(items[start..end])
  {
    var run := items[start..end];
    assert forall k :: 0 <= k < |run| ==> run[k] == items[start + k];
    assert forall k :: start <= k < end ==> items[k] == run[k - start];
  }

  /** End of the run of tool results that begins at `start`. */
  method RunEnd(items: seq<Item>, start: nat) returns (end: nat)
    requires start <= |items|
    ensures start <= end <= |items|
    ensures ResultsBetween(items, start, end) && AllResults(items[start..end]) && StartsTurn(items[end..])
  {
    end := start;
    while end < |items| && items[end].ToolResult?
      invariant start <= end <= |items|
      invariant ResultsBetween(items, start, end)
    {
      end := end + 1;
    }
    RunBetween(items, start, end);
  }

  /** The id at `k` comes again between `k` and `end`. */
  ghost predicate Repeated(items: seq<Item>, k: nat, end: nat)
    requires k < end <= |items| && ResultsBetween(items, k, end)
  {
    exists m :: k < m < end && items[m].callId == items[k].callId
  }

  /** The scan has seen the run up to `idx`: `seen` holds the last position of
      every id, `marked` the positions that came again. */
  ghost predicate Marked(items: seq<Item>, start: nat, idx: nat, seen: map<string, nat>, marked: set<nat>)
    requires start <= idx <= |items| && ResultsBetween(items, start, idx)
  {
    && (forall id :: id in seen ==> start <= seen[id] < idx && items[seen[id]].callId == id)
    && (forall k :: start <= k < idx ==> items[k].callId in seen && k <= seen[items[k].callId])
    && (forall k: nat :: k in marked <==> start <= k < idx && k != seen[items[k].callId])
  }

  lemma MarkedMeansRepeated(items: seq<Item>, start: nat, idx: nat, seen: map<string, nat>, marked: set<nat>)
    requires start <= idx <= |items| && ResultsBetween(items, start, idx)
    requires Marked(items, start, idx, seen, marked)
    ensures forall k: nat :: k in marked <==> start <= k < idx && Repeated(items, k, idx)
  {
    forall k: nat | start <= k < idx
      ensures k != seen[items[k].callId] <==> Repeated(items, k, idx)
    {
      var last := seen[items[k].callId];
      assert k <= last < idx && items[last].callId == items[k].callId;
      if Repeated(items, k, idx) {
        var m :| k < m < idx && items[m].callId == items[k].callId;
        assert m <= seen[items[m].callId];
      }
    }
  }

  /** Positions in the run whose id comes again later in the run. */
  method MarkDuplicates(items: seq<Item>, start: nat, end: nat) returns (toRemove: set<nat>)
    requires start <= end <= |items| && ResultsBetween(items, start, end)
    ensures forall k: nat :: k in toRemove <==> start <= k < end && Repeated(items, k, end)
  {
    toRemove := {};
    var seen: map<string, nat> := map[];
    var idx := start;
    while idx < end
      invariant start <= idx <= end
      invariant Marked(items, start, idx, seen, toRemove)
    {
      var id := items[idx].callId;
      if id in seen {
        toRemove := toRemove + {seen[id]};
      }
      seen := seen[id := idx];
      idx := idx + 1;
    }
    MarkedMeansRepeated(items, start, end, seen, toRemove);
  }

  lemma RepeatedIsLaterId(items: seq<Item>, k: nat, end: nat)
    requires k < end <= |items| && ResultsBetween(items, k, end)
    ensures AllResults(items[k + 1..end])
    ensures Repeated(items, k, end) <==> items[k].callId in ResultIds(items[k + 1..end])
  {
    var later := items[k + 1..end];
    RunBetween(items, k + 1, end);
    if items[k].callId in ResultIds(later) {
      var x :| x in later && x.ToolResult? && x.callId == items[k].callId;
      var a :| 0 <= a < |later| && later[a] == x;
      assert items[k + 1 + a] == x;
    }
    forall m | k < m < end && items[m].callId == items[k].callId
      ensures items[k].callId in ResultIds(later)
    {
      assert later[m - k - 1] == items[m];
    }
  }

  /** Ids answered in `items[start..end]`, as the scan collects them. */
  method CollectAnswered(items: seq<Item>, start: nat, end: nat) returns (answered: set<string>)
    requires start <= end <= |items| && AllResults(items[start..end])
    ensures answered == ResultIds(items[start..end])
  {
    answered := {};
    var j := start;
    while j < end
      invariant start <= j <= end
      invariant answered == ResultIds(items[start..j])
    {
      assert items[start..end][j - start] == items[j];
      assert items[start..j + 1] == items[start..j] + [items[j]];
      answered := answered + {items[j].callId};
      j := j + 1;
    }
  }

  /** The retain scan of the strip pass. */
  method RetainOwned(items: seq<Item>) returns (kept: seq<Item>, stripped: seq<string>)
    ensures kept == Kept(items, {})
    ensures stripped == DroppedIds(items, {})
  {
    var runIds: set<string> := {};
    kept, stripped := [], [];
    assert items[0..] == items;
    for k := 0 to |items|
      invariant kept + Kept(items[k..], runIds) == Kept(items, {})
      invariant stripped + DroppedIds(items[k..], runIds) == DroppedIds(items, {})
    {
      var item := items[k];
      KeptStep(items, k, runIds);
      if item.ToolResult? && item.callId !in runIds {
        Assoc(stripped, [item.callId], DroppedIds(items[k + 1..], runIds));
        stripped := stripped + [item.callId];
      } else {
        Assoc(kept, [item], Kept(items[k + 1..], NextIds(item, runIds)));
        kept := kept + [item];
        if item.Assistant? {
          runIds := CallIds(item.calls);
        } else if !item.ToolResult? {
          runIds := {};
        }
      }
    }
  }

  /** The first phase of the backfill pass: where to insert which results. */
  method FindRepairs(items: seq<Item>, reason: Reason) returns (repairs: seq<(nat, seq<Item>)>)
    ensures UpTo(repairs, |items|)
    ensures SpliceAll(items, repairs) == Apply(BackfillPass(reason), items)
  {
    ghost var p := BackfillPass(reason);
    repairs := [];
    var i := 0;
    BackfilledEnds(p, items, []);
    while i < |items|
      invariant i <= |items|
      invariant UpTo(repairs, i)
      invariant Backfilled(p, items, i, repairs) == Apply(p, items)
    {
      if IsCaller(items[i]) {
        var j := RunEnd(items, i + 1);
        var answered := CollectAnswered(items, i + 1, j);
        var synthetic := Synthetic(items[i].calls, answered, reason);
        BackfilledTurn(p, items, i, j, synthetic, repairs);
        if synthetic != [] {
          repairs := repairs + [(j, synthetic)];
        }
        i := j;
      } else {
        BackfilledItem(p, items, i, repairs);
        i := i + 1;
      }
    }
    BackfilledEnds(p, items, repairs);
  }

  class Transcript {
    var items: seq<Item>

    constructor (items: seq<Item>)
      ensures this.items == items
    {
      this.items := items;
    }

    /** Remove the marked positions, highest first. */
    method RemoveMarked(start: nat, end: nat, toRemove: set<nat>) returns (removed: nat)
      requires start <= end <= |items| && ResultsBetween(items, start, end)
      requires forall k: nat :: k in toRemove <==> start <= k < end && Repeated(items, k, end)
      modifies this
      ensures AllResults(old(items[start..end]))
      ensures items == Treated(old(items), start, end)
      ensures removed + |items| == |old(items)|
      ensures toRemove != {} ==> removed > 0
    {
      removed := 0;
      ghost var was := items;
      var idx := end;
      while idx > start
        invariant start <= idx <= end
        invariant AllResults(was[idx..end])
        invariant items == Treated(was, idx, end)
        invariant removed + |items| == |was|
        invariant (exists k :: k in toRemove && idx <= k) ==> removed > 0
      {
        idx := idx - 1;
        TreatOne(was, idx, end);
        if idx in toRemove {
          items := items[..idx] + items[idx + 1..];
          removed := removed + 1;
        }
      }
    }

    method DedupDuplicateToolResults() returns (removed: nat)
      modifies this
      ensures items == Apply(DedupPass, old(items))
      ensures removed == |old(items)| - |items|
    {
      removed := 0;
      var i := 0;
      ProgressEnds(DedupPass, items);
      while i < |items|
        invariant i <= |items|
        invariant Progress(DedupPass, items, i) == Apply(DedupPass, old(items))
        invariant removed + |items| == |old(items)|
        decreases |items| - i
      {
        if IsCaller(items[i]) {
          var start := i + 1;
          var end := RunEnd(items, start);
          var toRemove := {};
          if end > start {
            toRemove := MarkDuplicates(items, start, end);
          }
          if toRemove != {} {
            ghost var was := items;
            var n := RemoveMarked(start, end, toRemove);
            removed := removed + n;
            ProgressDedup(was, items, i, end);
          } else {
            NothingMarked(items, start, end);
            ProgressCleanTurn(items, i, end);
            i := end;
          }
        } else {
          ProgressItem(DedupPass, items, i);
          i := i + 1;
        }
      }
      ProgressEnds(DedupPass, items);
    }

    /** The strip pass, returning the ids it dropped. */
    method StripDisplacedToolResults() returns (stripped: seq<string>)
      modifies this
      ensures items == Apply(StripPass, old(items))
      ensures stripped == DroppedIds(old(items), {})
    {
      ScanIsStripPass(items);
      items, stripped := RetainOwned(items);
    }

    /** Insert a synthetic result for every call its run leaves unanswered. */
    method RepairDanglingToolCalls(reason: Reason) returns (inserted: nat)
      modifies this
      ensures items == Apply(BackfillPass(reason), old(items))
      ensures inserted == |items| - |old(items)|
    {
      var repairs := FindRepairs(items, reason);
      inserted := ApplyRepairs(repairs);
    }

    /** The second phase: splice the blocks in, last position first. */
    method ApplyRepairs(repairs: seq<(nat, seq<Item>)>) returns (total: nat)
      requires UpTo(repairs, |items|)
      modifies this
      ensures items == SpliceAll(old(items), repairs)
      ensures total == |items| - |old(items)|
    {
      total := 0;
      var k := |repairs|;
      assert repairs[..k] == repairs;
      while k > 0
        invariant 0 <= k <= |repairs|
        invariant UpTo(repairs, |items|)
        invariant SpliceAll(items, repairs[..k]) == SpliceAll(old(items), repairs)
        invariant |items| == |old(items)| + total
      {
        k := k - 1;
        var (at, block) := repairs[k];
        assert repairs[k] in repairs;
        assert repairs[..k + 1][k] == repairs[k] && repairs[..k + 1][..k] == repairs[..k];
        items := items[..at] + block + items[at..];
        total := total + |block|;
      }
    }

    /** The three passes in order, with the report of what they changed. */
    method RepairHistory(reason: Reason) returns (report: RepairReport)
      modifies this
      ensures items == Repair.RepairHistory(old(items), reason)
      ensures report == ReportOf(old(items), reason)
      ensures |items| == |old(items)| - report.duplicatesRemoved - |report.strippedIds| + report.syntheticInserted
    {
      var duplicates := DedupDuplicateToolResults();
      ghost var once := items;
      var stripped := StripDisplacedToolResults();
      var inserted := RepairDanglingToolCalls(reason);
      report := RepairReport(duplicates, stripped, inserted);
      ThenIsComposition(DedupPass, StripPass, old(items));
      ThenIsComposition(Then(DedupPass, StripPass), BackfillPass(reason), old(items));
      KeptCount(once, {});
      ScanIsStripPass(once);
    }
  }

  lemma {:induction false} DedupShrinks(s: seq<Item>)
    requires StartsTurn(s)
    ensures |ApplyTurns(DedupPass, s)| <= |s|
    ensures |ApplyTurns(DedupPass, s)| == |s| ==> ApplyTurns(DedupPass, s) == s
    decreases |s|
  {
    if s != [] {
      TurnSplit(s);
      KeepLastFacts(FirstRun(s));
      DedupShrinks(AfterTurn(s));
    }
  }

  lemma {:induction false} BackfillGrows(s: seq<Item>, reason: Reason)
    requires StartsTurn(s)
    ensures |ApplyTurns(BackfillPass(reason), s)| >= |s|
    ensures |ApplyTurns(BackfillPass(reason), s)| == |s| ==> ApplyTurns(BackfillPass(reason), s) == s
    decreases |s|
  {
    if s != [] {
      var p, head, run := BackfillPass(reason), s[0], FirstRun(s);
      TurnSplit(s);
      BackfillGrows(AfterTurn(s), reason);
      if |ApplyTurns(p, s)| == |s| {
        assert |NewRun(p, head, run)| == |run|;
        assert NewRun(p, head, run) == run;
      }
    }
  }

  function ReportOf(s: seq<Item>, reason: Reason): RepairReport {
    var once := Apply(DedupPass, s);
    var owned := Apply(StripPass, once);
    var repaired := Apply(BackfillPass(reason), owned);
    DedupLength(s);
    BackfillLength(owned, reason);
    RepairReport(|s| - |once|, DroppedIds(once, {}), |repaired| - |owned|)
  }

  lemma DedupLength(s: seq<Item>)
    ensures |Apply(DedupPass, s)| <= |s|
    ensures |Apply(DedupPass, s)| == |s| ==> Apply(DedupPass, s) == s
  {
    DedupShrinks(s[RunLen(s)..]);
    Split(s, RunLen(s));
  }

  lemma BackfillLength(s: seq<Item>, reason: Reason)
    ensures |Apply(BackfillPass(reason), s)| >= |s|
    ensures |Apply(BackfillPass(reason), s)| == |s| ==> Apply(BackfillPass(reason), s) == s
  {
    var n := RunLen(s);
    BackfillGrows(s[n..], reason);
    assert s == s[..n] + s[n..];
  }
}
