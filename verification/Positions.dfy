/** The turn-by-turn predicates of `Repair` agree with the pairing rule stated
    on positions in `Conversation`. */
module Positions {
  import opened Conversation
  import opened Repair

  /** The run of tool results right after position `j`. */
  function RunAt(s: seq<Item>, j: nat): (run: seq<Item>)
    requires j < |s|
    ensures AllResults(run)
    ensures forall i: nat :: InRun(s, j, i) <==> j < i <= j + |run|
    ensures j + |run| < |s|
    ensures forall k :: 0 <= k < |run| ==> run[k] == s[j + 1 + k]
  {
    var t := s[j + 1..];
    var n := RunLen(t);
    assert forall k :: j < k < |s| ==> s[k] == t[k - j - 1];
    t[..n]
  }

  /** An assistant leaves the id shared by its calls `a` and `b` unanswered. */
  ghost predicate UnansweredTwin(s: seq<Item>, j: nat, a: nat, b: nat) {
    && j < |s| && s[j].Assistant?
    && a < b < |s[j].calls|
    && s[j].calls[a].id == s[j].calls[b].id
    && forall i: nat :: !Answers(s, j, i, s[j].calls[a].id)
  }

  ghost predicate HeadAt(s: seq<Item>, k: nat, j: nat) {
    k <= j < |s| && !s[j].ToolResult?
  }

  lemma {:induction false} TurnsByPosition(s: seq<Item>, k: nat)
    requires k <= |s| && StartsTurn(s[k..])
    ensures GoodTurns(s[k..]) <==> forall j: nat :: HeadAt(s, k, j) ==> GoodTurn(s[j], RunAt(s, j))
    ensures TwinFreeTurns(s[k..]) <==> forall j: nat :: HeadAt(s, k, j) ==> TwinFreeTurn(s[j], RunAt(s, j))
    decreases |s| - k
  {
    if k < |s| {
      var n := RunLen(s[k..][1..]);
      var m := k + 1 + n;
      assert s[k..][1..] == s[k + 1..];
      assert s[k..][1..][..n] == RunAt(s, k);
      assert s[k..][1..][n..] == s[m..];
      TurnsByPosition(s, m);
      forall j: nat | HeadAt(s, k, j) && j != k ensures HeadAt(s, m, j) {
        assert j < m ==> InRun(s, k, j);
      }
      assert HeadAt(s, k, k);
      assert forall j: nat :: HeadAt(s, m, j) ==> HeadAt(s, k, j);
    }
  }

  lemma {:induction false} DistinctByPosition(run: seq<Item>)
    requires AllResults(run)
    ensures Distinct(run) <==> forall a, b :: 0 <= a < b < |run| ==> run[a].callId != run[b].callId
  {
    if run != [] {
      DistinctByPosition(run[1..]);
      ResultIdsByPosition(run[1..]);
      assert forall a :: 0 < a < |run| ==> run[a] == run[1..][a - 1];
      assert forall a :: 0 <= a < |run| - 1 ==> run[1..][a] == run[a + 1];
    }
  }

  lemma ResultIdsByPosition(run: seq<Item>)
    requires AllResults(run)
    ensures forall id :: id in ResultIds(run) <==> exists a :: 0 <= a < |run| && run[a].callId == id
  {
    forall a | 0 <= a < |run| ensures run[a].callId in ResultIds(run) {
      assert run[a] in run;
    }
  }

  /** A result in the run of head `j` is owned exactly when `j` declares it. */
  lemma OwnedByHead(s: seq<Item>, j: nat, i: nat)
    requires j < |s| && !s[j].ToolResult? && InRun(s, j, i)
    ensures Owned(s, i) <==> s[i].callId in Declares(s[j])
  {
    if s[i].callId in Declares(s[j]) {
      assert Owns(s, j, i);
    }
    if Owned(s, i) {
      var o: nat :| Owns(s, o, i);
      assert o == j;
    }
  }

  lemma OwnedRun(s: seq<Item>, j: nat)
    requires j < |s| && !s[j].ToolResult?
    ensures ResultIds(RunAt(s, j)) <= Declares(s[j]) <==> forall i: nat :: InRun(s, j, i) ==> Owned(s, i)
  {
    var run := RunAt(s, j);
    forall i: nat | InRun(s, j, i)
      ensures Owned(s, i) <==> s[i].callId in Declares(s[j])
      ensures run[i - j - 1] == s[i] && s[i].callId in ResultIds(run)
    {
      OwnedByHead(s, j, i);
      assert run[i - j - 1] in run;
    }
    if forall i: nat :: InRun(s, j, i) ==> Owned(s, i) {
      ResultIdsByPosition(run);
      forall a | 0 <= a < |run| ensures run[a].callId in Declares(s[j]) {
        assert InRun(s, j, j + 1 + a);
      }
    }
  }

  /** Which ids the run answers, by position. */
  lemma AnsweredByPosition(s: seq<Item>, j: nat, id: string)
    requires j < |s|
    ensures id in ResultIds(RunAt(s, j)) <==> exists i: nat :: Answers(s, j, i, id)
  {
    var run := RunAt(s, j);
    ResultIdsByPosition(run);
    if id in ResultIds(run) {
      var a :| 0 <= a < |run| && run[a].callId == id;
      assert Answers(s, j, j + 1 + a, id);
    }
    if exists i: nat :: Answers(s, j, i, id) {
      var i: nat :| Answers(s, j, i, id);
      assert run[i - j - 1].callId == id;
    }
  }

  lemma DistinctRun(s: seq<Item>, j: nat)
    requires j < |s| && ResultIds(RunAt(s, j)) == Declares(s[j])
    ensures Distinct(RunAt(s, j)) <==> forall id :: id in Declares(s[j]) ==> AnsweredOnce(s, j, id)
  {
    var run := RunAt(s, j);
    DistinctByPosition(run);
    if Distinct(run) {
      forall id | id in Declares(s[j]) ensures AnsweredOnce(s, j, id) {
        AnsweredByPosition(s, j, id);
        forall i: nat, k: nat | Answers(s, j, i, id) && Answers(s, j, k, id) ensures i == k {
          assert run[i - j - 1].callId == run[k - j - 1].callId;
        }
      }
    }
    if forall id :: id in Declares(s[j]) ==> AnsweredOnce(s, j, id) {
      forall a, b | 0 <= a < b < |run| ensures run[a].callId != run[b].callId {
        assert run[a] in run;
        assert AnsweredOnce(s, j, run[a].callId);
        assert Answers(s, j, j + 1 + a, run[a].callId);
        assert run[b].callId == run[a].callId ==> Answers(s, j, j + 1 + b, run[a].callId);
      }
    }
  }

  /** A turn is good exactly when its results are owned and its calls answered once. */
  lemma GoodTurnByPosition(s: seq<Item>, j: nat)
    requires j < |s| && !s[j].ToolResult?
    ensures GoodTurn(s[j], RunAt(s, j)) <==>
            && (forall i: nat :: InRun(s, j, i) ==> Owned(s, i))
            && (forall id :: id in Declares(s[j]) ==> AnsweredOnce(s, j, id))
  {
    var run := RunAt(s, j);
    OwnedRun(s, j);
    if (forall id :: id in Declares(s[j]) ==> AnsweredOnce(s, j, id)) {
      forall id | id in Declares(s[j]) ensures id in ResultIds(run) {
        assert AnsweredOnce(s, j, id);
        AnsweredByPosition(s, j, id);
      }
    }
    if ResultIds(run) == Declares(s[j]) {
      DistinctRun(s, j);
    }
  }

  /** The head whose run contains result `i`. */
  lemma {:induction false} HeadOf(s: seq<Item>, i: nat) returns (j: nat)
    requires i < |s| && s[i].ToolResult? && StartsTurn(s)
    ensures HeadAt(s, 0, j) && InRun(s, j, i)
  {
    if s[i - 1].ToolResult? {
      j := HeadOf(s, i - 1);
    } else {
      j := i - 1;
    }
  }

  /** The recursive and the positional statements of the pairing rule agree. */
  lemma WellPairedByPosition(s: seq<Item>)
    ensures WellPaired(s) <==> ExactlyPaired(s)
  {
    assert s[0..] == s;
    if s != [] && s[0].ToolResult? {
      assert forall j: nat :: !Owns(s, j, 0);
    } else {
      TurnsByPosition(s, 0);
      forall j: nat | HeadAt(s, 0, j)
        ensures GoodTurn(s[j], RunAt(s, j)) <==>
                && (forall i: nat :: InRun(s, j, i) ==> Owned(s, i))
                && (forall id :: id in Declares(s[j]) ==> AnsweredOnce(s, j, id))
      {
        GoodTurnByPosition(s, j);
      }
      if GoodTurns(s) {
        forall i: nat | i < |s| && s[i].ToolResult? ensures Owned(s, i) {
          var j := HeadOf(s, i);
        }
      }
    }
  }

  lemma TwinFreeTurnByPosition(s: seq<Item>, j: nat)
    requires j < |s| && !s[j].ToolResult?
    ensures TwinFreeTurn(s[j], RunAt(s, j)) <==> forall a: nat, b: nat :: !UnansweredTwin(s, j, a, b)
  {
    if s[j].Assistant? {
      var run, calls := RunAt(s, j), s[j].calls;
      forall id ensures id in ResultIds(run) <==> exists i: nat :: Answers(s, j, i, id) {
        AnsweredByPosition(s, j, id);
      }
      TwinsByPosition(calls, ResultIds(run));
      forall a: nat, b: nat
        ensures UnansweredTwin(s, j, a, b) <==>
                a < b < |calls| && calls[a].id == calls[b].id && calls[a].id !in ResultIds(run)
      {}
    }
  }

  lemma {:induction false} TwinsByPosition(calls: seq<ToolCall>, answered: set<string>)
    ensures TwinsAnswered(calls, answered) <==>
            forall a, b :: 0 <= a < b < |calls| && calls[a].id == calls[b].id ==> calls[a].id in answered
  {
    if calls != [] {
      TwinsByPosition(calls[1..], answered);
      assert forall a :: 0 < a < |calls| ==> calls[a] == calls[1..][a - 1];
      assert forall a :: 0 <= a < |calls| - 1 ==> calls[1..][a] == calls[a + 1];
      if calls[0].id in CallIds(calls[1..]) {
        var b :| 0 <= b < |calls| - 1 && calls[1..][b].id == calls[0].id;
        assert calls[b + 1].id == calls[0].id;
      }
      forall b | 0 < b < |calls| && calls[b].id == calls[0].id
        ensures calls[0].id in CallIds(calls[1..])
      {
        assert calls[b] in calls[1..];
      }
    }
  }

  lemma NoUnansweredTwinsByPosition(s: seq<Item>)
    ensures NoUnansweredTwins(s) <==> forall j: nat, a: nat, b: nat :: !UnansweredTwin(s, j, a, b)
  {
    var n := RunLen(s);
    TurnsByPosition(s, n);
    forall j: nat | HeadAt(s, n, j)
      ensures TwinFreeTurn(s[j], RunAt(s, j)) <==> forall a: nat, b: nat :: !UnansweredTwin(s, j, a, b)
    {
      TwinFreeTurnByPosition(s, j);
    }
    assert forall j: nat, a: nat, b: nat :: UnansweredTwin(s, j, a, b) ==> HeadAt(s, n, j);
  }
}
