/** The three repair passes over a conversation and their composition,
    `repair_history`.

    A conversation is a leading run of tool results followed by turns, a turn
    being one other item and the run of tool results right after it. Each pass
    rewrites runs only, so it is given by what it does to one run
    (`NewRun`), and `Apply` lifts that to the whole conversation. */
module Repair {
  import opened Sequences
  import opened Conversation

  datatype Reason = UserCancelled | HarnessHalted(class_: string)

  function SyntheticText(name: string, reason: Reason): string {
    match reason
    case UserCancelled =>
      "Tool execution was cancelled by the user (tool `" + name + "` was not executed)."
    case HarnessHalted(c) =>
      "Tool execution was halted by the harness (" + c + "); the tool `" + name + "` was not executed."
  }

  // ---------------------------------------------------------------- runs

  /** The last result of every id, in place. */
  function KeepLast(run: seq<Item>): (r: seq<Item>)
    requires AllResults(run)
    ensures AllResults(r)
  {
    if run == [] then []
    else if run[0].callId in ResultIds(run[1..]) then KeepLast(run[1..])
    else [run[0]] + KeepLast(run[1..])
  }

  function KeepIds(run: seq<Item>, ids: set<string>): (r: seq<Item>)
    requires AllResults(run)
    ensures AllResults(r)
  {
    if run == [] then []
    else (if run[0].callId in ids then [run[0]] else []) + KeepIds(run[1..], ids)
  }

  /** One synthetic result per unanswered call, in call order. */
  function Synthetic(calls: seq<ToolCall>, answered: set<string>, reason: Reason): (r: seq<Item>)
    ensures AllResults(r)
  {
    if calls == [] then []
    else
      (if calls[0].id in answered then []
       else [ToolResult(calls[0].id, SyntheticText(calls[0].name, reason), [])])
      + Synthetic(calls[1..], answered, reason)
  }

  /** No two results of the run answer the same id. */
  ghost predicate Distinct(run: seq<Item>)
    requires AllResults(run)
  {
    run == [] || (run[0].callId !in ResultIds(run[1..]) && Distinct(run[1..]))
  }

  /** No id is declared twice unless it is already answered. */
  ghost predicate TwinsAnswered(calls: seq<ToolCall>, answered: set<string>) {
    calls == []
    || ((calls[0].id in answered || calls[0].id !in CallIds(calls[1..]))
        && TwinsAnswered(calls[1..], answered))
  }

  lemma ResultIdsCons(x: Item, rest: seq<Item>)
    requires x.ToolResult?
    ensures ResultIds([x] + rest) == {x.callId} + ResultIds(rest)
  {
    assert x in [x] + rest;
  }

  lemma ResultIdsSplit(s: seq<Item>)
    requires s != [] && s[0].ToolResult?
    ensures ResultIds(s) == {s[0].callId} + ResultIds(s[1..])
  {
    assert s == [s[0]] + s[1..];
    ResultIdsCons(s[0], s[1..]);
  }

  lemma CallIdsSplit(calls: seq<ToolCall>)
    requires calls != []
    ensures CallIds(calls) == {calls[0].id} + CallIds(calls[1..])
  {
    assert calls == [calls[0]] + calls[1..];
  }

  lemma {:induction false} KeepLastFacts(run: seq<Item>)
    requires AllResults(run)
    ensures ResultIds(KeepLast(run)) == ResultIds(run)
    ensures Distinct(KeepLast(run))
    ensures |KeepLast(run)| <= |run|
    ensures |KeepLast(run)| == |run| ==> KeepLast(run) == run
    ensures Distinct(run) <==> KeepLast(run) == run
  {
    if run != [] {
      KeepLastFacts(run[1..]);
      ResultIdsSplit(run);
      ResultIdsCons(run[0], KeepLast(run[1..]));
      assert ([run[0]] + KeepLast(run[1..]))[1..] == KeepLast(run[1..]);
    }
  }

  /** `KeepLast` keeps, for each id, exactly its last occurrence. */
  lemma {:induction false} KeepLastKeepsTheLast(run: seq<Item>, k: nat)
    requires AllResults(run) && k < |run|
    requires forall m :: k < m < |run| ==> run[m].callId != run[k].callId
    ensures forall x :: x in KeepLast(run) && x.callId == run[k].callId <==> x == run[k]
  {
    if k > 0 {
      KeepLastKeepsTheLast(run[1..], k - 1);
      assert run[k] in run[1..];
    } else {
      KeepLastFacts(run[1..]);
    }
  }

  lemma {:induction false} KeepIdsIds(run: seq<Item>, ids: set<string>)
    requires AllResults(run)
    ensures ResultIds(KeepIds(run, ids)) == ResultIds(run) * ids
  {
    if run != [] {
      var tail := KeepIds(run[1..], ids);
      KeepIdsIds(run[1..], ids);
      ResultIdsSplit(run);
      if run[0].callId in ids {
        ResultIdsCons(run[0], tail);
      } else {
        assert KeepIds(run, ids) == tail;
      }
    }
  }

  lemma {:induction false} KeepIdsFacts(run: seq<Item>, ids: set<string>)
    requires AllResults(run)
    ensures ResultIds(KeepIds(run, ids)) == ResultIds(run) * ids
    ensures Distinct(run) ==> Distinct(KeepIds(run, ids))
    ensures |KeepIds(run, ids)| <= |run|
    ensures ResultIds(run) <= ids <==> KeepIds(run, ids) == run
  {
    KeepIdsIds(run, ids);
    if run != [] {
      var tail := KeepIds(run[1..], ids);
      KeepIdsFacts(run[1..], ids);
      if run[0].callId in ids {
        assert KeepIds(run, ids)[1..] == tail;
        ResultIdsSplit(run);
      } else {
        assert KeepIds(run, ids) == tail;
        assert run[0].callId in ResultIds(run);
      }
    }
  }

  lemma {:induction false} SyntheticIds(calls: seq<ToolCall>, answered: set<string>, reason: Reason)
    ensures ResultIds(Synthetic(calls, answered, reason)) == CallIds(calls) - answered
  {
    if calls != [] {
      var rest := Synthetic(calls[1..], answered, reason);
      SyntheticIds(calls[1..], answered, reason);
      CallIdsSplit(calls);
      if calls[0].id in answered {
        assert Synthetic(calls, answered, reason) == rest;
      } else {
        ResultIdsCons(ToolResult(calls[0].id, SyntheticText(calls[0].name, reason), []), rest);
      }
    }
  }

  lemma {:induction false} SyntheticFacts(calls: seq<ToolCall>, answered: set<string>, reason: Reason)
    ensures ResultIds(Synthetic(calls, answered, reason)) == CallIds(calls) - answered
    ensures Distinct(Synthetic(calls, answered, reason)) <==> TwinsAnswered(calls, answered)
    ensures CallIds(calls) <= answered <==> Synthetic(calls, answered, reason) == []
  {
    SyntheticIds(calls, answered, reason);
    if calls != [] {
      var rest := Synthetic(calls[1..], answered, reason);
      SyntheticFacts(calls[1..], answered, reason);
      if calls[0].id in answered {
        assert Synthetic(calls, answered, reason) == rest;
        CallIdsSplit(calls);
      } else {
        Tail(ToolResult(calls[0].id, SyntheticText(calls[0].name, reason), []), rest);
        assert calls[0].id in CallIds(calls);
      }
    }
  }

  lemma {:induction false} DistinctConcat(a: seq<Item>, b: seq<Item>)
    requires AllResults(a) && AllResults(b)
    ensures ResultIds(a + b) == ResultIds(a) + ResultIds(b)
    ensures Distinct(a + b) <==> Distinct(a) && Distinct(b) && ResultIds(a) !! ResultIds(b)
  {
    if a == [] {
      assert a + b == b;
    } else {
      assert (a + b)[1..] == a[1..] + b;
      DistinctConcat(a[1..], b);
      ResultIdsSplit(a);
      ResultIdsSplit(a + b);
    }
  }

  // ---------------------------------------------------------------- passes

  datatype Pass =
    | DedupPass
    | StripPass
    | BackfillPass(reason: Reason)
    | Then(first: Pass, second: Pass)

  predicate IsCaller(item: Item) {
    item.Assistant? && item.calls != []
  }

  /** What a pass makes of the run after `head`. */
  function NewRun(p: Pass, head: Item, run: seq<Item>): (r: seq<Item>)
    requires AllResults(run) && !head.ToolResult?
    ensures AllResults(r)
    decreases p
  {
    match p
    case DedupPass => if IsCaller(head) then KeepLast(run) else run
    case StripPass => KeepIds(run, Declares(head))
    case BackfillPass(reason) =>
      if IsCaller(head) then run + Synthetic(head.calls, ResultIds(run), reason) else run
    case Then(p1, p2) => NewRun(p2, head, NewRun(p1, head, run))
  }

  /** What a pass makes of the results before the first turn. */
  function NewLead(p: Pass, run: seq<Item>): (r: seq<Item>)
    requires AllResults(run)
    ensures AllResults(r)
    decreases p
  {
    match p
    case DedupPass => run
    case StripPass => []
    case BackfillPass(_) => run
    case Then(p1, p2) => NewLead(p2, NewLead(p1, run))
  }

  function ApplyTurns(p: Pass, s: seq<Item>): (r: seq<Item>)
    requires StartsTurn(s)
    ensures StartsTurn(r)
    decreases |s|
  {
    if s == [] then []
    else [s[0]] + NewRun(p, s[0], FirstRun(s)) + ApplyTurns(p, AfterTurn(s))
  }

  function Apply(p: Pass, s: seq<Item>): seq<Item> {
    var n := RunLen(s);
    NewLead(p, s[..n]) + ApplyTurns(p, s[n..])
  }

  function RepairPass(reason: Reason): Pass {
    Then(Then(DedupPass, StripPass), BackfillPass(reason))
  }

  /** One turn at the front is rewritten independently of the rest. */
  lemma ApplyTurnsCons(p: Pass, head: Item, run: seq<Item>, rest: seq<Item>)
    requires !head.ToolResult? && AllResults(run) && StartsTurn(rest)
    ensures ApplyTurns(p, [head] + run + rest) == [head] + NewRun(p, head, run) + ApplyTurns(p, rest)
  {
    var s := [head] + run + rest;
    assert s[1..] == run + rest;
    RunLenOfRun(run, rest);
    assert s[1..][..|run|] == run && s[1..][|run|..] == rest;
  }

  lemma ApplyLead(p: Pass, run: seq<Item>, rest: seq<Item>)
    requires AllResults(run) && StartsTurn(rest)
    ensures Apply(p, run + rest) == NewLead(p, run) + ApplyTurns(p, rest)
  {
    RunLenOfRun(run, rest);
    assert (run + rest)[..|run|] == run && (run + rest)[|run|..] == rest;
  }

  lemma {:induction false} ThenTurns(p: Pass, q: Pass, s: seq<Item>)
    requires StartsTurn(s)
    ensures ApplyTurns(Then(p, q), s) == ApplyTurns(q, ApplyTurns(p, s))
    decreases |s|
  {
    if s != [] {
      ThenTurns(p, q, AfterTurn(s));
      ApplyTurnsCons(q, s[0], NewRun(p, s[0], FirstRun(s)), ApplyTurns(p, AfterTurn(s)));
    }
  }

  /** Running one pass after another is the pass that treats each run with the
      first and then the second. */
  lemma {:induction false} ThenIsComposition(p: Pass, q: Pass, s: seq<Item>)
    ensures Apply(Then(p, q), s) == Apply(q, Apply(p, s))
  {
    var n := RunLen(s);
    ThenTurns(p, q, s[n..]);
    ApplyLead(q, NewLead(p, s[..n]), ApplyTurns(p, s[n..]));
  }

  lemma {:induction false} PassKeepsOthers(p: Pass, s: seq<Item>)
    requires StartsTurn(s)
    ensures NonResults(ApplyTurns(p, s)) == NonResults(s)
    decreases |s|
  {
    if s != [] {
      var head, run, rest := s[0], FirstRun(s), AfterTurn(s);
      TurnSplit(s);
      PassKeepsOthers(p, rest);
      OthersOfTurn(head, run, rest);
      OthersOfTurn(head, NewRun(p, head, run), ApplyTurns(p, rest));
    }
  }

  lemma OthersOfTurn(head: Item, run: seq<Item>, rest: seq<Item>)
    requires !head.ToolResult? && AllResults(run)
    ensures NonResults([head] + run + rest) == [head] + NonResults(rest)
  {
    assert ([head] + run + rest)[1..] == run + rest;
    NonResultsConcat(run, rest);
    NonResultsOfRun(run);
  }

  /** Every pass leaves the items that are not tool results in order. */
  lemma {:induction false} PassPreservesOtherItems(p: Pass, s: seq<Item>)
    ensures NonResults(Apply(p, s)) == NonResults(s)
  {
    Split(s, RunLen(s));
    PassKeepsOthers(p, s[RunLen(s)..]);
    OnlyResultsBefore(s[..RunLen(s)], s[RunLen(s)..]);
    OnlyResultsBefore(NewLead(p, s[..RunLen(s)]), ApplyTurns(p, s[RunLen(s)..]));
  }

  lemma OnlyResultsBefore(run: seq<Item>, rest: seq<Item>)
    requires AllResults(run)
    ensures NonResults(run + rest) == NonResults(rest)
  {
    NonResultsConcat(run, rest);
    NonResultsOfRun(run);
    EmptyRight(NonResults(rest));
  }

  // ---------------------------------------------------------------- turns

  /** The run answers exactly the head's calls, each once. */
  ghost predicate GoodTurn(head: Item, run: seq<Item>)
    requires AllResults(run)
  {
    ResultIds(run) == Declares(head) && Distinct(run)
  }

  ghost predicate TwinFreeTurn(head: Item, run: seq<Item>) {
    head.Assistant? ==> TwinsAnswered(head.calls, ResultIds(run))
  }

  ghost predicate GoodTurns(s: seq<Item>)
    requires StartsTurn(s)
    decreases |s|
  {
    s == [] || (GoodTurn(s[0], FirstRun(s)) && GoodTurns(AfterTurn(s)))
  }

  ghost predicate TwinFreeTurns(s: seq<Item>)
    requires StartsTurn(s)
    decreases |s|
  {
    s == [] || (TwinFreeTurn(s[0], FirstRun(s)) && TwinFreeTurns(AfterTurn(s)))
  }

  /** The pairing rule, turn by turn. */
  ghost predicate WellPaired(s: seq<Item>) {
    StartsTurn(s) && GoodTurns(s)
  }

  /** No assistant leaves an id it declares twice without any result. */
  ghost predicate NoUnansweredTwins(s: seq<Item>) {
    TwinFreeTurns(s[RunLen(s)..])
  }

  lemma EmptyRun(run: seq<Item>)
    requires AllResults(run)
    ensures ResultIds(run) == {} <==> run == []
  {
    if run != [] {
      assert run[0].callId in ResultIds(run);
    }
  }

  lemma {:induction false} TwinsAnsweredLocal(calls: seq<ToolCall>, a: set<string>, b: set<string>)
    requires forall id :: id in CallIds(calls) ==> (id in a <==> id in b)
    ensures TwinsAnswered(calls, a) <==> TwinsAnswered(calls, b)
  {
    if calls != [] {
      CallIdsSplit(calls);
      TwinsAnsweredLocal(calls[1..], a, b);
    }
  }

  lemma {:induction false} TwinsAllAnswered(calls: seq<ToolCall>, answered: set<string>)
    requires CallIds(calls) <= answered
    ensures TwinsAnswered(calls, answered)
  {
    if calls != [] {
      CallIdsSplit(calls);
      TwinsAllAnswered(calls[1..], answered);
    }
  }

  /** The run a caller keeps after the first two passes. */
  lemma KeptRun(head: Item, run: seq<Item>)
    requires IsCaller(head) && AllResults(run)
    ensures var kept := NewRun(Then(DedupPass, StripPass), head, run);
            && Distinct(kept)
            && ResultIds(kept) == ResultIds(run) * Declares(head)
            && (kept == run <==> Distinct(run) && ResultIds(run) <= Declares(head))
  {
    var once := KeepLast(run);
    KeepLastFacts(run);
    KeepIdsFacts(once, Declares(head));
    KeepIdsFacts(run, Declares(head));
  }

  lemma RepairedCallerRun(head: Item, run: seq<Item>, reason: Reason)
    requires IsCaller(head) && AllResults(run)
    ensures var r := NewRun(RepairPass(reason), head, run);
            && ResultIds(r) == Declares(head)
            && (Distinct(r) <==> TwinFreeTurn(head, run))
            && TwinFreeTurn(head, r)
            && (r == run <==> GoodTurn(head, run))
  {
    var kept := NewRun(Then(DedupPass, StripPass), head, run);
    var syn := Synthetic(head.calls, ResultIds(kept), reason);
    KeptRun(head, run);
    SyntheticFacts(head.calls, ResultIds(kept), reason);
    DistinctConcat(kept, syn);
    TwinsAnsweredLocal(head.calls, ResultIds(kept), ResultIds(run));
    TwinsAllAnswered(head.calls, ResultIds(kept + syn));
  }

  lemma RepairedRun(head: Item, run: seq<Item>, reason: Reason)
    requires !head.ToolResult? && AllResults(run)
    ensures var r := NewRun(RepairPass(reason), head, run);
            && (GoodTurn(head, r) <==> TwinFreeTurn(head, run))
            && TwinFreeTurn(head, r)
            && (r == run <==> GoodTurn(head, run))
  {
    if IsCaller(head) {
      RepairedCallerRun(head, run, reason);
    } else {
      var r := NewRun(RepairPass(reason), head, run);
      KeepIdsFacts(run, Declares(head));
      EmptyRun(r);
      EmptyRun(run);
    }
  }

  lemma GoodTurnsCons(head: Item, run: seq<Item>, rest: seq<Item>)
    requires !head.ToolResult? && AllResults(run) && StartsTurn(rest)
    ensures GoodTurns([head] + run + rest) <==> GoodTurn(head, run) && GoodTurns(rest)
    ensures TwinFreeTurns([head] + run + rest) <==> TwinFreeTurn(head, run) && TwinFreeTurns(rest)
  {
    var s := [head] + run + rest;
    assert s[1..] == run + rest;
    RunLenOfRun(run, rest);
    assert s[1..][..|run|] == run && s[1..][|run|..] == rest;
  }

  lemma {:induction false} RepairedTurns(s: seq<Item>, reason: Reason)
    requires StartsTurn(s)
    ensures GoodTurns(ApplyTurns(RepairPass(reason), s)) <==> TwinFreeTurns(s)
    ensures TwinFreeTurns(ApplyTurns(RepairPass(reason), s))
    ensures ApplyTurns(RepairPass(reason), s) == s <==> GoodTurns(s)
    decreases |s|
  {
    if s != [] {
      var p := RepairPass(reason);
      var head, run, rest := s[0], FirstRun(s), AfterTurn(s);
      TurnSplit(s);
      RepairedTurns(rest, reason);
      RepairedRun(head, run, reason);
      GoodTurnsCons(head, NewRun(p, head, run), ApplyTurns(p, rest));
      if ApplyTurns(p, s) == s {
        SameSplit(NewRun(p, head, run), ApplyTurns(p, rest), run, rest, head);
      }
    }
  }

  /** A turn is determined by the text it prints. */
  lemma SameSplit(run1: seq<Item>, rest1: seq<Item>, run2: seq<Item>, rest2: seq<Item>, head: Item)
    requires AllResults(run1) && AllResults(run2) && StartsTurn(rest1) && StartsTurn(rest2)
    requires [head] + run1 + rest1 == [head] + run2 + rest2
    ensures run1 == run2 && rest1 == rest2
  {
    var a, b := [head] + run1 + rest1, [head] + run2 + rest2;
    assert a[1..] == run1 + rest1 && b[1..] == run2 + rest2;
    RunLenOfRun(run1, rest1);
    RunLenOfRun(run2, rest2);
    assert run1 == (run1 + rest1)[..|run1|] && run2 == (run2 + rest2)[..|run1|];
    assert rest1 == (run1 + rest1)[|run1|..] && rest2 == (run2 + rest2)[|run1|..];
  }

  // ---------------------------------------------------------------- main results

  function RepairHistory(s: seq<Item>, reason: Reason): seq<Item> {
    Apply(RepairPass(reason), s)
  }

  /** Results before the first turn have no owner and are all dropped. */
  lemma RepairDropsLead(s: seq<Item>, reason: Reason)
    ensures RepairHistory(s, reason) == ApplyTurns(RepairPass(reason), s[RunLen(s)..])
  {
    var lead := s[..RunLen(s)];
    assert NewLead(Then(DedupPass, StripPass), lead) == [];
    assert NewLead(RepairPass(reason), lead) == [];
  }

  lemma RepairedHistory(s: seq<Item>, reason: Reason)
    ensures WellPaired(RepairHistory(s, reason)) <==> NoUnansweredTwins(s)
    ensures NoUnansweredTwins(RepairHistory(s, reason))
    ensures RepairHistory(s, reason) == s <==> WellPaired(s)
  {
    var p := RepairPass(reason);
    var n := RunLen(s);
    RepairedTurns(s[n..], reason);
    var out := ApplyTurns(p, s[n..]);
    RepairDropsLead(s, reason);
    assert RunLen(out) == 0 && out[0..] == out;
    if n == 0 {
      assert s[n..] == s;
    }
  }
}
