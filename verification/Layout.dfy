/** Where every item of a repaired history comes from and in what order, stated on
    positions of the history before the repair. */
module Layout {
  import opened Sequences
  import opened Conversation
  import opened Positions
  import Repair
  import Displaced

  /** An item of the original, or the answer added for a call of the assistant at
      `owner`. */
  datatype Origin = Original(at: nat) | Added(owner: nat, call: nat)

  /** `x` is what `o` stands for. */
  predicate Shows(s: seq<Item>, reason: Repair.Reason, o: Origin, x: Item) {
    match o
    case Original(at) => at < |s| && x == s[at]
    case Added(owner, call) =>
      && owner < |s| && s[owner].Assistant? && call < |s[owner].calls|
      && x == ToolResult(s[owner].calls[call].id, Repair.SyntheticText(s[owner].calls[call].name, reason), [])
  }

  /** The result at `at` is the last one for its id in the run of the assistant at
      `j`, which declares the id. */
  ghost predicate LastOf(s: seq<Item>, j: nat, at: nat) {
    Owns(s, j, at) && forall m: nat :: at < m && InRun(s, j, m) ==> s[m].callId != s[at].callId
  }

  /** A repair keeps what is not a result, and the last result of every id in its
      owner's run. */
  ghost predicate Stays(s: seq<Item>, at: nat) {
    at < |s| && (s[at].ToolResult? ==> exists j: nat :: LastOf(s, j, at))
  }

  /** A repair answers the calls that nothing in their run answers. */
  ghost predicate Missing(s: seq<Item>, owner: nat, call: nat) {
    && owner < |s| && s[owner].Assistant? && call < |s[owner].calls|
    && forall i: nat :: !Answers(s, owner, i, s[owner].calls[call].id)
  }

  /** An added answer stands after the last item of its owner's run, in call order. */
  datatype Place = Place(at: nat, rank: nat)

  function PlaceOf(s: seq<Item>, o: Origin): Place {
    match o
    case Original(at) => Place(at, 0)
    case Added(owner, call) => Place(if owner < |s| then owner + |RunAt(s, owner)| else owner, call + 1)
  }

  predicate Before(a: Place, b: Place) {
    a.at < b.at || (a.at == b.at && a.rank < b.rank)
  }

  ghost predicate AllShow(s: seq<Item>, reason: Repair.Reason, os: seq<Origin>, xs: seq<Item>) {
    |os| == |xs| && forall i: nat :: i < |os| ==> ShowsAt(s, reason, os, xs, i)
  }

  ghost predicate ShowsAt(s: seq<Item>, reason: Repair.Reason, os: seq<Origin>, xs: seq<Item>, i: nat) {
    i < |os| && i < |xs| && Shows(s, reason, os[i], xs[i])
  }

  ghost predicate InOrder(s: seq<Item>, os: seq<Origin>) {
    forall i, k :: 0 <= i < k < |os| ==> Before(PlaceOf(s, os[i]), PlaceOf(s, os[k]))
  }

  /** `r` consists of what stays and of an answer for each missing one, in order. */
  ghost predicate LaidOut(s: seq<Item>, reason: Repair.Reason, os: seq<Origin>, r: seq<Item>) {
    && AllShow(s, reason, os, r) && InOrder(s, os)
    && (forall at: nat :: Original(at) in os <==> Stays(s, at))
    && (forall owner: nat, call: nat :: Added(owner, call) in os <==> Missing(s, owner, call))
  }

  // ------------------------------------------------------ the parts of a turn

  /** Results from `i` to `end` that are the last of their id in the run of `j`. */
  ghost function KeptPart(s: seq<Item>, j: nat, i: nat, end: nat): seq<Origin>
    requires i <= end
    decreases end - i
  {
    if i == end then []
    else (if LastOf(s, j, i) then [Original(i)] else []) + KeptPart(s, j, i + 1, end)
  }

  /** Answers for the missing calls of `j` from `c` on. */
  ghost function AddedPart(s: seq<Item>, j: nat, c: nat): seq<Origin>
    requires j < |s| && s[j].Assistant? && c <= |s[j].calls|
    decreases |s[j].calls| - c
  {
    if c == |s[j].calls| then []
    else (if Missing(s, j, c) then [Added(j, c)] else []) + AddedPart(s, j, c + 1)
  }

  ghost function AnswersPart(s: seq<Item>, k: nat): seq<Origin>
    requires k < |s|
  {
    if s[k].Assistant? then AddedPart(s, k, 0) else []
  }

  ghost function RunPart(s: seq<Item>, k: nat): seq<Origin>
    requires k < |s|
  {
    KeptPart(s, k, k + 1, k + 1 + |RunAt(s, k)|) + AnswersPart(s, k)
  }

  ghost function TurnPart(s: seq<Item>, k: nat): seq<Origin>
    requires k < |s|
  {
    [Original(k)] + RunPart(s, k)
  }

  ghost function TurnsPart(s: seq<Item>, k: nat): seq<Origin>
    requires k <= |s|
    decreases |s| - k
  {
    if k == |s| then [] else TurnPart(s, k) + TurnsPart(s, k + 1 + |RunAt(s, k)|)
  }

  // ------------------------------------------------------ what they show

  lemma ShowConcat(s: seq<Item>, reason: Repair.Reason, a: seq<Origin>, b: seq<Origin>, x: seq<Item>, y: seq<Item>)
    requires AllShow(s, reason, a, x) && AllShow(s, reason, b, y)
    ensures AllShow(s, reason, a + b, x + y)
  {
    forall i: nat | i < |a + b|
      ensures ShowsAt(s, reason, a + b, x + y, i)
    {
      assert if i < |a| then ShowsAt(s, reason, a, x, i) else ShowsAt(s, reason, b, y, i - |a|);
    }
  }

  /** A result is the last of its id exactly when the rest of the run has no other. */
  lemma LastInRest(s: seq<Item>, j: nat, a: nat)
    requires j < |s| && !s[j].ToolResult? && a < |RunAt(s, j)|
    ensures LastOf(s, j, j + 1 + a) <==>
            && RunAt(s, j)[a].callId in Declares(s[j])
            && RunAt(s, j)[a].callId !in ResultIds(RunAt(s, j)[a + 1..])
  {
    var run := RunAt(s, j);
    ResultIdsByPosition(run[a + 1..]);
    assert InRun(s, j, j + 1 + a);
    if run[a].callId in ResultIds(run[a + 1..]) {
      var m :| 0 <= m < |run[a + 1..]| && run[a + 1..][m].callId == run[a].callId;
      assert InRun(s, j, j + 2 + a + m) && s[j + 2 + a + m] == run[a + 1 + m];
    } else {
      forall m: nat | j + 1 + a < m && InRun(s, j, m)
        ensures s[m].callId != run[a].callId
      {
        assert run[a + 1..][m - j - a - 2] == s[m];
      }
    }
  }

  /** The run of `j`, with the last of its ids told by what follows them. */
  ghost predicate IsRunOf(s: seq<Item>, j: nat, run: seq<Item>)
    requires j < |s|
  {
    && AllResults(run) && j + |run| < |s|
    && forall a: nat :: a < |run| ==> InRunAt(s, j, run, a)
  }

  ghost predicate InRunAt(s: seq<Item>, j: nat, run: seq<Item>, a: nat)
    requires AllResults(run) && a < |run| && j + |run| < |s|
  {
    && s[j + 1 + a] == run[a]
    && (LastOf(s, j, j + 1 + a) <==> run[a].callId in Declares(s[j]) && run[a].callId !in ResultIds(run[a + 1..]))
  }

  lemma RunAtIsRun(s: seq<Item>, j: nat)
    requires j < |s| && !s[j].ToolResult?
    ensures IsRunOf(s, j, RunAt(s, j))
  {
    forall a: nat | a < |RunAt(s, j)|
      ensures InRunAt(s, j, RunAt(s, j), a)
    {
      LastInRest(s, j, a);
    }
  }

  lemma {:induction false} KeptShows(s: seq<Item>, reason: Repair.Reason, j: nat, run: seq<Item>, a: nat)
    requires j < |s| && IsRunOf(s, j, run) && a <= |run|
    ensures AllShow(s, reason, KeptPart(s, j, j + 1 + a, j + 1 + |run|),
                    Repair.KeepIds(Repair.KeepLast(run[a..]), Declares(s[j])))
    decreases |run| - a
  {
    if a < |run| {
      KeptShows(s, reason, j, run, a + 1);
      assert InRunAt(s, j, run, a);
      Grow(run, a);
      KeptPartShows(s, reason, j, j + 1 + a, j + 1 + |run|, run[a + 1..]);
    }
  }

  lemma KeptPartShows(s: seq<Item>, reason: Repair.Reason, j: nat, i: nat, end: nat, rest: seq<Item>)
    requires j < |s| && i < end && i < |s| && s[i].ToolResult? && AllResults(rest)
    requires LastOf(s, j, i) <==> s[i].callId in Declares(s[j]) && s[i].callId !in ResultIds(rest)
    requires AllShow(s, reason, KeptPart(s, j, i + 1, end), Repair.KeepIds(Repair.KeepLast(rest), Declares(s[j])))
    ensures AllShow(s, reason, KeptPart(s, j, i, end), Repair.KeepIds(Repair.KeepLast([s[i]] + rest), Declares(s[j])))
  {
    var stays := s[i].callId in Declares(s[j]) && s[i].callId !in ResultIds(rest);
    KeepStep(s[i], rest, Declares(s[j]));
    StepShows(s, reason, stays, Original(i), KeptPart(s, j, i + 1, end), s[i],
              Repair.KeepIds(Repair.KeepLast(rest), Declares(s[j])));
    KeptPartStep(s, j, i, end, stays);
  }

  lemma KeptPartStep(s: seq<Item>, j: nat, i: nat, end: nat, stays: bool)
    requires i < end && (LastOf(s, j, i) <==> stays)
    ensures KeptPart(s, j, i, end) == (if stays then [Original(i)] else []) + KeptPart(s, j, i + 1, end)
  {}

  lemma StepShows(s: seq<Item>, reason: Repair.Reason, stays: bool, o: Origin, os: seq<Origin>, x: Item, xs: seq<Item>)
    requires AllShow(s, reason, os, xs) && Shows(s, reason, o, x)
    ensures AllShow(s, reason, (if stays then [o] else []) + os, (if stays then [x] else []) + xs)
  {
    ShowConcat(s, reason, if stays then [o] else [], os, if stays then [x] else [], xs);
  }

  lemma KeepStep(x: Item, rest: seq<Item>, ids: set<string>)
    requires x.ToolResult? && AllResults(rest)
    ensures Repair.KeepIds(Repair.KeepLast([x] + rest), ids) ==
            (if x.callId in ids && x.callId !in ResultIds(rest) then [x] else [])
            + Repair.KeepIds(Repair.KeepLast(rest), ids)
  {
    Tail(x, rest);
    Tail(x, Repair.KeepLast(rest));
  }

  lemma {:induction false} AddedShows(s: seq<Item>, reason: Repair.Reason, j: nat, c: nat, answered: set<string>)
    requires j < |s| && s[j].Assistant? && c <= |s[j].calls|
    requires forall d: nat :: d < |s[j].calls| ==> (Missing(s, j, d) <==> s[j].calls[d].id !in answered)
    ensures AllShow(s, reason, AddedPart(s, j, c), Repair.Synthetic(s[j].calls[c..], answered, reason))
    decreases |s[j].calls| - c
  {
    if c < |s[j].calls| {
      AddedShows(s, reason, j, c + 1, answered);
      assert s[j].calls[c..][1..] == s[j].calls[c + 1..];
      var call := s[j].calls[c];
      StepShows(s, reason, call.id !in answered, Added(j, c), AddedPart(s, j, c + 1),
                ToolResult(call.id, Repair.SyntheticText(call.name, reason), []),
                Repair.Synthetic(s[j].calls[c + 1..], answered, reason));
    }
  }

  /** The calls that are missing are those the kept results leave unanswered. */
  lemma MissingInRun(s: seq<Item>, j: nat, d: nat)
    requires j < |s| && Repair.IsCaller(s[j]) && d < |s[j].calls|
    ensures Missing(s, j, d) <==>
            s[j].calls[d].id !in ResultIds(Repair.KeepIds(Repair.KeepLast(RunAt(s, j)), Declares(s[j])))
  {
    Repair.KeptRun(s[j], RunAt(s, j));
    AnsweredByPosition(s, j, s[j].calls[d].id);
    assert s[j].calls[d] in s[j].calls;
  }

  lemma RunShows(s: seq<Item>, reason: Repair.Reason, j: nat, run: seq<Item>, kept: seq<Item>, added: seq<Item>, r: seq<Item>)
    requires j < |s| && s[j].Assistant? && r == kept + added
    requires AllShow(s, reason, KeptPart(s, j, j + 1, j + 1 + |run|), kept)
    requires AllShow(s, reason, AddedPart(s, j, 0), added)
    ensures AllShow(s, reason, KeptPart(s, j, j + 1, j + 1 + |run|) + AddedPart(s, j, 0), r)
  {
    ShowConcat(s, reason, KeptPart(s, j, j + 1, j + 1 + |run|), AddedPart(s, j, 0), kept, added);
  }

  lemma CallerShows(s: seq<Item>, reason: Repair.Reason, j: nat, run: seq<Item>)
    requires j < |s| && Repair.IsCaller(s[j]) && run == RunAt(s, j)
    ensures AllShow(s, reason, KeptPart(s, j, j + 1, j + 1 + |run|) + AddedPart(s, j, 0),
                    Repair.NewRun(Repair.RepairPass(reason), s[j], run))
  {
    var kept := Repair.KeepIds(Repair.KeepLast(run), Declares(s[j]));
    AllKeptShow(s, reason, j, run);
    AllAddedShow(s, reason, j, kept);
    RepairedRun(s[j], run, reason);
    RunShows(s, reason, j, run, kept, Repair.Synthetic(s[j].calls, ResultIds(kept), reason),
             Repair.NewRun(Repair.RepairPass(reason), s[j], run));
  }

  lemma RepairedRun(head: Item, run: seq<Item>, reason: Repair.Reason)
    requires Repair.IsCaller(head) && AllResults(run)
    ensures var kept := Repair.KeepIds(Repair.KeepLast(run), Declares(head));
            Repair.NewRun(Repair.RepairPass(reason), head, run) ==
            kept + Repair.Synthetic(head.calls, ResultIds(kept), reason)
  {
    assert Repair.NewRun(Repair.Then(Repair.DedupPass, Repair.StripPass), head, run)
        == Repair.KeepIds(Repair.KeepLast(run), Declares(head));
  }

  lemma AllKeptShow(s: seq<Item>, reason: Repair.Reason, j: nat, run: seq<Item>)
    requires j < |s| && !s[j].ToolResult? && run == RunAt(s, j)
    ensures AllShow(s, reason, KeptPart(s, j, j + 1, j + 1 + |run|), Repair.KeepIds(Repair.KeepLast(run), Declares(s[j])))
  {
    RunAtIsRun(s, j);
    KeptShows(s, reason, j, run, 0);
    assert run[0..] == run;
  }

  lemma AllAddedShow(s: seq<Item>, reason: Repair.Reason, j: nat, kept: seq<Item>)
    requires j < |s| && Repair.IsCaller(s[j])
    requires kept == Repair.KeepIds(Repair.KeepLast(RunAt(s, j)), Declares(s[j]))
    ensures AllShow(s, reason, AddedPart(s, j, 0), Repair.Synthetic(s[j].calls, ResultIds(kept), reason))
  {
    forall d: nat | d < |s[j].calls|
      ensures Missing(s, j, d) <==> s[j].calls[d].id !in ResultIds(kept)
    {
      MissingInRun(s, j, d);
    }
    AddedShows(s, reason, j, 0, ResultIds(kept));
    assert s[j].calls[0..] == s[j].calls;
  }

  lemma {:induction false} NothingKept(s: seq<Item>, j: nat, i: nat, end: nat)
    requires j < |s| && Declares(s[j]) == {} && i <= end
    ensures KeptPart(s, j, i, end) == []
    decreases end - i
  {
    if i < end {
      NothingKept(s, j, i + 1, end);
    }
  }

  lemma HeadShows(s: seq<Item>, reason: Repair.Reason, k: nat, os: seq<Origin>, run: seq<Item>)
    requires k < |s| && AllShow(s, reason, os, run)
    ensures AllShow(s, reason, [Original(k)] + os, [s[k]] + run)
  {
    ShowConcat(s, reason, [Original(k)], os, [s[k]], run);
  }

  lemma TurnShows(s: seq<Item>, reason: Repair.Reason, k: nat)
    requires k < |s| && !s[k].ToolResult?
    ensures AllShow(s, reason, TurnPart(s, k), [s[k]] + Repair.NewRun(Repair.RepairPass(reason), s[k], RunAt(s, k)))
  {
    var end := k + 1 + |RunAt(s, k)|;
    if Repair.IsCaller(s[k]) {
      CallerShows(s, reason, k, RunAt(s, k));
      HeadShows(s, reason, k, RunPart(s, k), Repair.NewRun(Repair.RepairPass(reason), s[k], RunAt(s, k)));
    } else {
      Displaced.KeepNone(RunAt(s, k));
      NothingKept(s, k, k + 1, end);
      EmptyRight([Original(k)]);
      EmptyRight([s[k]]);
    }
  }

  lemma TurnAt(s: seq<Item>, k: nat)
    requires k < |s| && !s[k].ToolResult?
    ensures s[k..][0] == s[k]
    ensures FirstRun(s[k..]) == RunAt(s, k) && AfterTurn(s[k..]) == s[k + 1 + |RunAt(s, k)|..]
    ensures StartsTurn(s[k + 1 + |RunAt(s, k)|..])
  {
    assert s[k..][1..] == s[k + 1..];
  }

  lemma {:induction false} TurnsShow(s: seq<Item>, reason: Repair.Reason, k: nat)
    requires k <= |s| && StartsTurn(s[k..])
    ensures AllShow(s, reason, TurnsPart(s, k), Repair.ApplyTurns(Repair.RepairPass(reason), s[k..]))
    decreases |s| - k
  {
    if k < |s| {
      var next := k + 1 + |RunAt(s, k)|;
      assert s[k..][0] == s[k];
      TurnAt(s, k);
      TurnsShow(s, reason, next);
      TurnShows(s, reason, k);
      ShowConcat(s, reason, TurnPart(s, k), TurnsPart(s, next),
                 [s[k]] + Repair.NewRun(Repair.RepairPass(reason), s[k], RunAt(s, k)),
                 Repair.ApplyTurns(Repair.RepairPass(reason), s[next..]));
    }
  }

  // ------------------------------------------------------ which origins, in what order

  lemma {:induction false} KeptMembers(s: seq<Item>, j: nat, i: nat, end: nat)
    requires i <= end
    ensures forall o :: o in KeptPart(s, j, i, end) <==> o.Original? && i <= o.at < end && LastOf(s, j, o.at)
    ensures InOrder(s, KeptPart(s, j, i, end))
    decreases end - i
  {
    if i < end {
      KeptMembers(s, j, i + 1, end);
      if LastOf(s, j, i) {
        OrderCons(s, Original(i), KeptPart(s, j, i + 1, end));
      }
    }
  }

  lemma {:induction false} AddedMembers(s: seq<Item>, j: nat, c: nat)
    requires j < |s| && s[j].Assistant? && c <= |s[j].calls|
    ensures forall o :: o in AddedPart(s, j, c) <==> o.Added? && o.owner == j && c <= o.call && Missing(s, j, o.call)
    ensures InOrder(s, AddedPart(s, j, c))
    decreases |s[j].calls| - c
  {
    if c < |s[j].calls| {
      AddedMembers(s, j, c + 1);
      OneMoreAdded(s, j, c, AddedPart(s, j, c + 1));
    }
  }

  lemma OneMoreAdded(s: seq<Item>, j: nat, c: nat, rest: seq<Origin>)
    requires j < |s| && s[j].Assistant? && c < |s[j].calls| && InOrder(s, rest)
    requires forall o :: o in rest <==> o.Added? && o.owner == j && c + 1 <= o.call && Missing(s, j, o.call)
    ensures var os := (if Missing(s, j, c) then [Added(j, c)] else []) + rest;
            && (forall o :: o in os <==> o.Added? && o.owner == j && c <= o.call && Missing(s, j, o.call))
            && InOrder(s, os)
  {
    if Missing(s, j, c) {
      OrderCons(s, Added(j, c), rest);
      forall o
        ensures o in [Added(j, c)] + rest <==> o == Added(j, c) || o in rest
      {
        assert o in [Added(j, c)] + rest <==> o in [Added(j, c)] || o in rest;
      }
    } else {
      EmptyRight(rest);
    }
  }

  lemma OrderCons(s: seq<Item>, o: Origin, rest: seq<Origin>)
    requires InOrder(s, rest) && forall x :: x in rest ==> Before(PlaceOf(s, o), PlaceOf(s, x))
    ensures InOrder(s, [o] + rest)
  {}

  lemma OrderConcat(s: seq<Item>, a: seq<Origin>, b: seq<Origin>)
    requires InOrder(s, a) && InOrder(s, b)
    requires forall x, y :: x in a && y in b ==> Before(PlaceOf(s, x), PlaceOf(s, y))
    ensures InOrder(s, a + b)
  {}

  /** What belongs to the turn at `k`. */
  ghost predicate OfTurn(s: seq<Item>, k: nat, o: Origin) {
    match o
    case Original(at) => at == k || LastOf(s, k, at)
    case Added(owner, call) => owner == k && Missing(s, k, call)
  }

  lemma TurnMembers(s: seq<Item>, k: nat)
    requires k < |s| && !s[k].ToolResult?
    ensures forall o :: o in TurnPart(s, k) <==> OfTurn(s, k, o)
    ensures InOrder(s, TurnPart(s, k))
    ensures forall o :: o in TurnPart(s, k) ==> k <= PlaceOf(s, o).at <= k + |RunAt(s, k)|
  {
    RunMembers(s, k);
    OrderCons(s, Original(k), RunPart(s, k));
    forall o
      ensures o in TurnPart(s, k) <==> o == Original(k) || o in RunPart(s, k)
    {
      assert o in [Original(k)] + RunPart(s, k) <==> o in [Original(k)] || o in RunPart(s, k);
    }
  }

  /** What belongs to the turn at `k` after its head. */
  ghost predicate OfRun(s: seq<Item>, k: nat, o: Origin) {
    match o
    case Original(at) => LastOf(s, k, at)
    case Added(owner, call) => owner == k && Missing(s, k, call)
  }

  lemma RunMembers(s: seq<Item>, k: nat)
    requires k < |s| && !s[k].ToolResult?
    ensures forall o :: o in RunPart(s, k) <==> OfRun(s, k, o)
    ensures InOrder(s, RunPart(s, k))
    ensures forall o :: o in RunPart(s, k) ==>
                k <= PlaceOf(s, o).at <= k + |RunAt(s, k)| && Before(Place(k, 0), PlaceOf(s, o))
  {
    KeptMembers(s, k, k + 1, k + 1 + |RunAt(s, k)|);
    LastIsInRun(s, k);
    AnswersMembers(s, k);
    KeptThenAdded(s, k, KeptPart(s, k, k + 1, k + 1 + |RunAt(s, k)|), AnswersPart(s, k));
  }

  lemma AnswersMembers(s: seq<Item>, k: nat)
    requires k < |s|
    ensures forall o :: o in AnswersPart(s, k) <==> o.Added? && o.owner == k && Missing(s, k, o.call)
    ensures InOrder(s, AnswersPart(s, k))
  {
    if s[k].Assistant? {
      AddedMembers(s, k, 0);
    }
  }

  lemma KeptThenAdded(s: seq<Item>, k: nat, kept: seq<Origin>, added: seq<Origin>)
    requires k < |s| && InOrder(s, kept) && InOrder(s, added)
    requires forall o :: o in kept <==> o.Original? && k < o.at <= k + |RunAt(s, k)| && LastOf(s, k, o.at)
    requires forall o :: o in added <==> o.Added? && o.owner == k && Missing(s, k, o.call)
    requires forall at: nat :: LastOf(s, k, at) ==> k < at <= k + |RunAt(s, k)|
    ensures InOrder(s, kept + added) && forall o :: o in kept + added <==> OfRun(s, k, o)
    ensures forall o :: o in kept + added ==>
                k <= PlaceOf(s, o).at <= k + |RunAt(s, k)| && Before(Place(k, 0), PlaceOf(s, o))
  {
    OrderConcat(s, kept, added);
    forall o
      ensures o in kept + added <==> OfRun(s, k, o)
    {
      assert o in kept + added <==> o in kept || o in added;
    }
  }

  lemma LastIsInRun(s: seq<Item>, k: nat)
    requires k < |s|
    ensures forall at: nat :: LastOf(s, k, at) ==> k < at <= k + |RunAt(s, k)|
  {
    forall at: nat | LastOf(s, k, at)
      ensures k < at <= k + |RunAt(s, k)|
    {
      assert InRun(s, k, at);
    }
  }

  /** A result in the run of the head `k` can only be the last of that run. */
  lemma StaysInTurn(s: seq<Item>, k: nat, at: nat)
    requires k < |s| && !s[k].ToolResult? && k <= at <= k + |RunAt(s, k)|
    ensures Stays(s, at) <==> OfTurn(s, k, Original(at))
  {
    assert at > k ==> InRun(s, k, at);
    if j: nat :| LastOf(s, j, at) {
      assert s[j].Assistant? && j < at;
      assert j == k;
    }
  }

  ghost predicate Belongs(s: seq<Item>, k: nat, o: Origin) {
    match o
    case Original(at) => k <= at && Stays(s, at)
    case Added(owner, call) => k <= owner && Missing(s, owner, call)
  }

  lemma BelongsStep(s: seq<Item>, k: nat, o: Origin)
    requires k < |s| && !s[k].ToolResult?
    ensures Belongs(s, k, o) <==> OfTurn(s, k, o) || Belongs(s, k + 1 + |RunAt(s, k)|, o)
  {
    match o
    case Original(at) =>
      assert LastOf(s, k, at) ==> at <= k + |RunAt(s, k)|;
      if k <= at <= k + |RunAt(s, k)| {
        StaysInTurn(s, k, at);
      }
    case Added(owner, call) =>
      assert k < owner <= k + |RunAt(s, k)| ==> InRun(s, k, owner);
  }

  lemma {:induction false} TurnsMembers(s: seq<Item>, k: nat)
    requires k <= |s| && StartsTurn(s[k..])
    ensures forall o :: o in TurnsPart(s, k) <==> Belongs(s, k, o)
    ensures InOrder(s, TurnsPart(s, k))
    decreases |s| - k
  {
    if k < |s| {
      var next := k + 1 + |RunAt(s, k)|;
      assert s[k..][0] == s[k];
      TurnAt(s, k);
      TurnsMembers(s, next);
      TurnMembers(s, k);
      forall o
        ensures Belongs(s, k, o) <==> OfTurn(s, k, o) || Belongs(s, next, o)
      {
        BelongsStep(s, k, o);
      }
      OrderConcat(s, TurnPart(s, k), TurnsPart(s, next));
    }
  }

  /** Results before the first turn belong to no run. */
  lemma NoneInLead(s: seq<Item>, at: nat)
    requires at < RunLen(s)
    ensures !Stays(s, at) && forall call: nat :: !Missing(s, at, call)
  {
    assert forall j: nat :: j <= at ==> Declares(s[j]) == {};
    assert forall j: nat :: LastOf(s, j, at) ==> j < at;
  }

  /** The repaired history: every item that is not a result and the last result of
      each id in its owner's run, at increasing positions, and after each run one
      answer for each call that had none, in call order; and nothing else. */
  lemma RepairIsLaidOut(s: seq<Item>, reason: Repair.Reason) returns (origins: seq<Origin>)
    ensures LaidOut(s, reason, origins, Repair.RepairHistory(s, reason))
  {
    origins := TurnsPart(s, RunLen(s));
    TurnsShow(s, reason, RunLen(s));
    Repair.RepairDropsLead(s, reason);
    LaidOutMembers(s, origins);
  }

  lemma LaidOutMembers(s: seq<Item>, origins: seq<Origin>)
    requires origins == TurnsPart(s, RunLen(s))
    ensures InOrder(s, origins)
    ensures forall at: nat :: Original(at) in origins <==> Stays(s, at)
    ensures forall owner: nat, call: nat :: Added(owner, call) in origins <==> Missing(s, owner, call)
  {
    var n := RunLen(s);
    TurnsMembers(s, n);
    forall at: nat | at < n
      ensures !Stays(s, at) && forall call: nat :: !Missing(s, at, call)
    {
      NoneInLead(s, at);
    }
  }

  // ------------------------------------------------------ nothing else is laid out so

  lemma FirstOfOrder(s: seq<Item>, a: seq<Origin>)
    requires a != [] && InOrder(s, a)
    ensures InOrder(s, a[1..]) && a[0] !in a[1..]
    ensures forall o :: o in a <==> o == a[0] || o in a[1..]
    ensures forall o :: o in a[1..] ==> Before(PlaceOf(s, a[0]), PlaceOf(s, o))
  {
    Front(a);
  }

  /** Two ordered lists with the same members are the same. */
  lemma {:induction false} OrderIsUnique(s: seq<Item>, a: seq<Origin>, b: seq<Origin>)
    requires InOrder(s, a) && InOrder(s, b) && forall o :: o in a <==> o in b
    ensures a == b
  {
    HasMember(a);
    HasMember(b);
    if a != [] && b != [] {
      FirstOfOrder(s, a);
      FirstOfOrder(s, b);
      assert a[0] in a && b[0] in b;
      assert a[0] == b[0];
      OrderIsUnique(s, a[1..], b[1..]);
      Front(a);
      Front(b);
    }
  }

  lemma HasMember(os: seq<Origin>)
    ensures os == [] <==> forall o :: o !in os
  {
    if os != [] {
      assert os[0] in os;
    }
  }

  lemma ShownOnce(s: seq<Item>, reason: Repair.Reason, os: seq<Origin>, x: seq<Item>, y: seq<Item>)
    requires AllShow(s, reason, os, x) && AllShow(s, reason, os, y)
    ensures x == y
  {
    forall i | 0 <= i < |os|
      ensures x[i] == y[i]
    {
      assert ShowsAt(s, reason, os, x, i) && ShowsAt(s, reason, os, y, i);
    }
  }

  lemma SameOrigins(s: seq<Item>, reason: Repair.Reason, a: seq<Origin>, b: seq<Origin>, x: seq<Item>, y: seq<Item>)
    requires LaidOut(s, reason, a, x) && LaidOut(s, reason, b, y)
    ensures forall o :: o in a <==> o in b
  {
    forall o
      ensures o in a <==> o in b
    {
      match o
      case Original(at) => assert Original(at) in a <==> Original(at) in b;
      case Added(owner, call) => assert Added(owner, call) in a <==> Added(owner, call) in b;
    }
  }

  /** The description is complete: it holds of the repaired history and of no other. */
  lemma RepairIffLaidOut(s: seq<Item>, reason: Repair.Reason, r: seq<Item>)
    ensures r == Repair.RepairHistory(s, reason) <==> exists os :: LaidOut(s, reason, os, r)
  {
    var origins := RepairIsLaidOut(s, reason);
    if os :| LaidOut(s, reason, os, r) {
      SameOrigins(s, reason, os, origins, r, Repair.RepairHistory(s, reason));
      OrderIsUnique(s, os, origins);
      ShownOnce(s, reason, origins, r, Repair.RepairHistory(s, reason));
    }
  }
}
