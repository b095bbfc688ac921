/** What `repair_history` guarantees, stated on positions. */
module RepairTheorems {
  import opened Sequences
  import opened Conversation
  import opened Repair
  import opened Positions
  import opened Displaced
  import opened History

  /** A caller could check this before repairing: every id an assistant declares
      twice already has a result in that assistant's run. */
  ghost predicate TwinsSettled(s: seq<Item>) {
    forall j: nat, a: nat, b: nat :: !UnansweredTwin(s, j, a, b)
  }

  /** Repair answers every call exactly once, next to its assistant, and leaves
      no other result, precisely when no id declared twice is unanswered. */
  lemma RepairPairsEveryCall(s: seq<Item>, reason: Reason)
    ensures ExactlyPaired(Repair.RepairHistory(s, reason)) <==> TwinsSettled(s)
  {
    RepairedHistory(s, reason);
    WellPairedByPosition(Repair.RepairHistory(s, reason));
    NoUnansweredTwinsByPosition(s);
  }

  /** Repair changes nothing exactly on the histories that are already paired. */
  lemma RepairFixesOnlyPaired(s: seq<Item>, reason: Reason)
    ensures Repair.RepairHistory(s, reason) == s <==> ExactlyPaired(s)
  {
    RepairedHistory(s, reason);
    WellPairedByPosition(s);
  }

  /** A second repair changes nothing exactly when the first left no twins. */
  lemma RepairIdempotentIff(s: seq<Item>, reason: Reason)
    ensures var once := Repair.RepairHistory(s, reason);
            Repair.RepairHistory(once, reason) == once <==> TwinsSettled(s)
  {
    RepairPairsEveryCall(s, reason);
    RepairFixesOnlyPaired(Repair.RepairHistory(s, reason), reason);
  }

  /** Two repairs always reach a paired history, from any conversation. */
  lemma SecondRepairSettles(s: seq<Item>, reason: Reason)
    ensures var twice := Repair.RepairHistory(Repair.RepairHistory(s, reason), reason);
            && ExactlyPaired(twice)
            && Repair.RepairHistory(twice, reason) == twice
  {
    var once := Repair.RepairHistory(s, reason);
    RepairedHistory(s, reason);
    NoUnansweredTwinsByPosition(once);
    RepairPairsEveryCall(once, reason);
    RepairFixesOnlyPaired(Repair.RepairHistory(once, reason), reason);
  }

  /** A history on which one repair is not enough: one assistant declares the
      same id twice and nothing answers it. */
  lemma TwinsNeedTwoRepairs(reason: Reason)
    ensures var call := ToolCall("c1", "run", "{}");
            var s := [Assistant("", [call, call])];
            var once := Repair.RepairHistory(s, reason);
            && !ExactlyPaired(once)
            && Repair.RepairHistory(once, reason) != once
  {
    var call := ToolCall("c1", "run", "{}");
    var s := [Assistant("", [call, call])];
    assert UnansweredTwin(s, 0, 0, 1);
    RepairPairsEveryCall(s, reason);
    RepairIdempotentIff(s, reason);
  }

  /** Everything but tool results survives, in order. */
  lemma RepairKeepsOtherItems(s: seq<Item>, reason: Reason)
    ensures NonResults(Repair.RepairHistory(s, reason)) == NonResults(s)
  {
    PassPreservesOtherItems(RepairPass(reason), s);
  }

  ghost predicate LastAnswer(run: seq<Item>, k: nat)
    requires AllResults(run)
  {
    k < |run| && forall m :: k < m < |run| ==> run[m].callId != run[k].callId
  }

  ghost predicate SurvivingAnswer(head: Item, run: seq<Item>, x: Item)
    requires AllResults(run)
  {
    exists k: nat :: LastAnswer(run, k) && run[k].callId in Declares(head) && x == run[k]
  }

  ghost predicate SyntheticAnswer(head: Item, run: seq<Item>, reason: Reason, x: Item)
    requires head.Assistant?
  {
    exists c :: c in head.calls && c.id !in ResultIds(run)
                && x == ToolResult(c.id, SyntheticText(c.name, reason), [])
  }

  /** The results of a repaired turn: the last original result of every
      declared id, and a synthetic one for each call that had none. */
  lemma RepairedTurnResults(head: Item, run: seq<Item>, reason: Reason, x: Item)
    requires IsCaller(head) && AllResults(run)
    ensures x in NewRun(RepairPass(reason), head, run) <==>
            SurvivingAnswer(head, run, x) || SyntheticAnswer(head, run, reason, x)
  {
    var kept := NewRun(Then(DedupPass, StripPass), head, run);
    KeptRun(head, run);
    SurvivorsAreLast(head, run, x);
    SyntheticMembers(head.calls, ResultIds(kept), reason, x);
    forall c | c in head.calls ensures c.id in ResultIds(kept) <==> c.id in ResultIds(run) {
      assert c.id in Declares(head);
    }
  }

  lemma SurvivorsAreLast(head: Item, run: seq<Item>, x: Item)
    requires IsCaller(head) && AllResults(run)
    ensures x in NewRun(Then(DedupPass, StripPass), head, run) <==> SurvivingAnswer(head, run, x)
  {
    KeepIdsMembers(KeepLast(run), Declares(head), x);
    KeepLastMembers(run, x);
  }

  lemma {:induction false} KeepIdsMembers(run: seq<Item>, ids: set<string>, x: Item)
    requires AllResults(run)
    ensures x in KeepIds(run, ids) <==> x in run && x.callId in ids
  {
    if run != [] {
      KeepIdsMembers(run[1..], ids, x);
      Front(run);
    }
  }

  lemma {:induction false} KeepLastMembers(run: seq<Item>, x: Item)
    requires AllResults(run)
    ensures x in KeepLast(run) <==> exists k: nat :: LastAnswer(run, k) && x == run[k]
  {
    if k: nat :| LastAnswer(run, k) && x == run[k] {
      KeepLastKeepsTheLast(run, k);
    }
    if x in KeepLast(run) {
      var k := KeepLastIndex(run, x);
    }
  }

  lemma {:induction false} KeepLastIndex(run: seq<Item>, x: Item) returns (k: nat)
    requires AllResults(run) && x in KeepLast(run)
    ensures LastAnswer(run, k) && x == run[k]
  {
    if x in KeepLast(run[1..]) {
      k := KeepLastIndex(run[1..], x);
      k := k + 1;
      assert forall m :: 0 < m < |run| ==> run[m] == run[1..][m - 1];
    } else {
      k := 0;
      forall m | 0 < m < |run| ensures run[m].callId != run[0].callId {
        assert run[m] in run[1..];
      }
    }
  }

  lemma {:induction false} SyntheticMembers(calls: seq<ToolCall>, answered: set<string>, reason: Reason, x: Item)
    ensures x in Synthetic(calls, answered, reason) <==>
            exists c :: c in calls && c.id !in answered && x == ToolResult(c.id, SyntheticText(c.name, reason), [])
  {
    if calls != [] {
      SyntheticMembers(calls[1..], answered, reason, x);
      Front(calls);
    }
  }

  // ------------------------------------------------------ the report

  lemma GoodRunIsFixed(p: Pass, head: Item, run: seq<Item>)
    requires !head.ToolResult? && AllResults(run) && GoodTurn(head, run) && !p.Then?
    ensures NewRun(p, head, run) == run
  {
    KeepLastFacts(run);
    KeepIdsFacts(run, Declares(head));
    if IsCaller(head) && p.BackfillPass? {
      SyntheticFacts(head.calls, ResultIds(run), p.reason);
    }
  }

  lemma {:induction false} GoodTurnsAreFixed(p: Pass, s: seq<Item>)
    requires StartsTurn(s) && GoodTurns(s) && !p.Then?
    ensures ApplyTurns(p, s) == s
    decreases |s|
  {
    if s != [] {
      TurnSplit(s);
      GoodTurnsAreFixed(p, AfterTurn(s));
      GoodRunIsFixed(p, s[0], FirstRun(s));
    }
  }

  lemma PairedIsFixed(p: Pass, s: seq<Item>)
    requires WellPaired(s) && !p.Then?
    ensures Apply(p, s) == s
  {
    GoodTurnsAreFixed(p, s);
    assert s == [] + s;
    ApplyLead(p, [], s);
  }

  lemma {:induction false} NothingDropped(s: seq<Item>, ids: set<string>)
    requires DroppedIds(s, ids) == []
    ensures Kept(s, ids) == s
  {
    if s != [] {
      NothingDropped(s[1..], NextIds(s[0], ids));
      Front(s);
    }
  }

  /** The report says "unchanged" exactly on histories that were already paired. */
  lemma ReportTellsTheTruth(s: seq<Item>, reason: Reason)
    ensures !ReportOf(s, reason).Changed() <==> ExactlyPaired(s)
  {
    var once := Apply(DedupPass, s);
    var owned := Apply(StripPass, once);
    WellPairedByPosition(s);
    DedupLength(s);
    ScanIsStripPass(once);
    KeptCount(once, {});
    BackfillLength(owned, reason);
    if WellPaired(s) {
      PairedIsFixed(DedupPass, s);
      PairedIsFixed(StripPass, s);
      PairedIsFixed(BackfillPass(reason), s);
    }
    if !ReportOf(s, reason).Changed() {
      NothingDropped(once, {});
      ThenIsComposition(DedupPass, StripPass, s);
      ThenIsComposition(Then(DedupPass, StripPass), BackfillPass(reason), s);
      RepairedHistory(s, reason);
    }
  }
}
