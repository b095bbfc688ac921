/** The terminal-wait protocol: a feeder, resizers and waiters around a
    generation counter, as interleaved atomic steps.

    The grid is the list of updates applied to it, so a condition is any
    predicate of that list; whatever the emulator shows is a function of it. */
module Wait {
  import opened Wrappers

  datatype Update = Fed(bytes: seq<int>) | Resized(cols: nat, rows: nat)

  type Grid = seq<Update>

  /** The feeder between two receives: it has a chunk, has fed it, or is gone. */
  datatype Feeder = Idle | Chunk(bytes: seq<int>) | Unbumped | Gone

  /** The resize call that holds the terminal lock, by what it has done. */
  datatype Resizer = Free | Locked(cols: nat, rows: nat) | GridResized | Upgraded | Finishing(hasSender: bool)

  datatype Goal = Until(met: Grid -> bool) | StableFor(window: nat)

  datatype Outcome = Matched | Unmatched(ended: bool)

  datatype Pc = Marking | Checking | Sleeping | Done(outcome: Outcome)

  datatype Waiter = Waiter(
    goal: Goal,
    deadline: nat,
    seen: nat,
    markGrid: Grid,
    checkedGrid: Grid,
    markTime: nat,
    senderGone: bool,
    pc: Pc)

  /** `changedAt` is when the grid was last updated. */
  datatype State = State(
    grid: Grid,
    changedAt: nat,
    generation: nat,
    feeder: Feeder,
    resizer: Resizer,
    silentResize: bool,
    now: nat,
    waiters: map<nat, Waiter>)

  datatype Action =
    | Tick
    | Receive(bytes: seq<int>)
    | Feed
    | FeederBump
    | FeederExit
    | LockForResize(cols: nat, rows: nat)
    | PtyResizeFails
    | ResizeGrid
    | UpgradeSender
    | ResizerBump
    | Unlock
    | Start(id: nat, goal: Goal, deadline: nat)
    | Mark(id: nat)
    | Check(id: nat)
    | Changed(id: nat)
    | Timer(id: nat)

  /** A strong reference to the sender exists. */
  predicate SenderAlive(s: State) {
    s.feeder != Gone || s.resizer.Upgraded? || s.resizer == Finishing(true)
  }

  /** Someone has changed the grid and will bump the generation next. */
  predicate BumpPending(s: State) {
    s.feeder.Unbumped? || s.resizer.GridResized? || s.resizer.Upgraded?
  }

  function WindowEnd(w: Waiter): nat
    requires w.goal.StableFor?
  {
    w.markTime + w.goal.window
  }

  function SetWaiter(s: State, id: nat, w: Waiter): State {
    s.(waiters := s.waiters[id := w])
  }

  /** The reaction of a sleeping waiter to `changed()`. */
  function OnChanged(s: State, w: Waiter): Option<Waiter> {
    if w.senderGone then None
    else if s.generation != w.seen then
      if w.goal.StableFor? && s.now >= w.deadline then Some(w.(pc := Done(Unmatched(false))))
      else Some(w.(pc := Marking))
    else if !SenderAlive(s) then
      if w.goal.Until? || s.now >= w.deadline then Some(w.(senderGone := true, pc := Done(Unmatched(true))))
      else Some(w.(senderGone := true, pc := Marking))
    else None
  }

  /** The reaction of a sleeping waiter to its timer. */
  function OnTimer(s: State, w: Waiter): Option<Waiter> {
    match w.goal
    case Until(_) =>
      if s.now >= w.deadline then Some(w.(pc := Done(Unmatched(false)))) else None
    case StableFor(_) =>
      if s.now < WindowEnd(w) && s.now < w.deadline then None
      else if WindowEnd(w) <= w.deadline then Some(w.(pc := Done(Matched)))
      else Some(w.(pc := Done(Unmatched(w.senderGone))))
  }

  /** One step of the writers; `None` when it is not enabled. */
  function WriterStep(s: State, a: Action): Option<State> {
    match a
    case Tick => Some(s.(now := s.now + 1))
    case Receive(bytes) => if s.feeder.Idle? then Some(s.(feeder := Chunk(bytes))) else None
    case Feed =>
      if s.feeder.Chunk? && s.resizer.Free? then
        Some(s.(grid := s.grid + [Fed(s.feeder.bytes)], changedAt := s.now, feeder := Unbumped))
      else None
    case FeederBump =>
      if s.feeder.Unbumped? then Some(s.(generation := s.generation + 1, feeder := Idle)) else None
    case FeederExit => if s.feeder.Idle? then Some(s.(feeder := Gone)) else None
    case LockForResize(cols, rows) => if s.resizer.Free? then Some(s.(resizer := Locked(cols, rows))) else None
    case PtyResizeFails => if s.resizer.Locked? then Some(s.(resizer := Free)) else None
    case ResizeGrid =>
      if s.resizer.Locked? then
        Some(s.(grid := s.grid + [Resized(s.resizer.cols, s.resizer.rows)], changedAt := s.now, resizer := GridResized))
      else None
    case UpgradeSender =>
      if !s.resizer.GridResized? then None
      else if SenderAlive(s) then Some(s.(resizer := Upgraded))
      else Some(s.(resizer := Finishing(false), silentResize := true))
    case ResizerBump =>
      if s.resizer.Upgraded? then Some(s.(generation := s.generation + 1, resizer := Finishing(true))) else None
    case Unlock => if s.resizer.Finishing? then Some(s.(resizer := Free)) else None
    case _ => None
  }

  /** One step of a waiter; `None` when it is not enabled. */
  function WaiterStep(s: State, a: Action): Option<State> {
    match a
    case Start(id, goal, deadline) =>
      if id in s.waiters then None
      else Some(SetWaiter(s, id, Waiter(goal, deadline, s.generation, s.grid, s.grid, s.now, false, Marking)))
    case Mark(id) =>
      if id in s.waiters && s.waiters[id].pc.Marking? then
        var w := s.waiters[id];
        Some(SetWaiter(s, id, w.(seen := s.generation, markGrid := s.grid, markTime := s.now,
                                 pc := if w.goal.Until? then Checking else Sleeping)))
      else None
    case Check(id) =>
      if id in s.waiters && s.waiters[id].pc.Checking? && s.waiters[id].goal.Until? && s.resizer.Free? then
        var w := s.waiters[id];
        Some(SetWaiter(s, id, w.(checkedGrid := s.grid, pc := if w.goal.met(s.grid) then Done(Matched) else Sleeping)))
      else None
    case Changed(id) =>
      if id in s.waiters && s.waiters[id].pc.Sleeping? then
        match OnChanged(s, s.waiters[id])
        case Some(w) => Some(SetWaiter(s, id, w))
        case None => None
      else None
    case Timer(id) =>
      if id in s.waiters && s.waiters[id].pc.Sleeping? then
        match OnTimer(s, s.waiters[id])
        case Some(w) => Some(SetWaiter(s, id, w))
        case None => None
      else None
    case _ => None
  }

  function Step(s: State, a: Action): Option<State> {
    if a.Start? || a.Mark? || a.Check? || a.Changed? || a.Timer? then WaiterStep(s, a) else WriterStep(s, a)
  }

  const INITIAL: State := State([], 0, 0, Idle, Free, false, 0, map[])

  /** The state after a run of enabled steps. */
  function After(s: State, run: seq<Action>): Option<State>
    decreases |run|
  {
    if run == [] then Some(s)
    else
      match After(s, run[..|run| - 1])
      case None => None
      case Some(t) => Step(t, run[|run| - 1])
  }

  ghost predicate Reachable(s: State) {
    exists run :: After(INITIAL, run) == Some(s)
  }

  // ------------------------------------------------------ invariant

  /** Nothing was fed to the grid since the waiter's last check. */
  ghost predicate OnlyResized(s: State, w: Waiter) {
    forall k :: |w.checkedGrid| <= k < |s.grid| ==> s.grid[k].Resized?
  }

  /** The grid was not resized since the waiter's last check. */
  ghost predicate NotResized(s: State, w: Waiter) {
    forall k :: |w.checkedGrid| <= k < |s.grid| ==> !s.grid[k].Resized?
  }

  /** The same since the waiter's last mark. */
  ghost predicate OnlyResizedSinceMark(s: State, w: Waiter) {
    forall k :: |w.markGrid| <= k < |s.grid| ==> s.grid[k].Resized?
  }

  ghost predicate NotResizedSinceMark(s: State, w: Waiter) {
    forall k :: |w.markGrid| <= k < |s.grid| ==> !s.grid[k].Resized?
  }

  /** What the protocol keeps for one waiter. */
  ghost predicate WaiterOk(s: State, w: Waiter) {
    && w.seen <= s.generation
    && w.markTime <= s.now
    && (s.grid == w.markGrid ==> s.changedAt <= w.markTime)
    && (w.pc == Done(Matched) && w.goal.Until? ==> w.goal.met(w.checkedGrid))
    && (w.seen == s.generation ==> s.grid == w.markGrid || BumpPending(s) || s.silentResize)
    && (w.pc.Checking? ==> w.goal.Until?)
    && (w.pc.Sleeping? && w.goal.Until? && w.seen == s.generation ==>
          !w.goal.met(s.grid) || BumpPending(s) || s.silentResize)
    && w.checkedGrid <= s.grid && w.markGrid <= s.grid
    && (w.seen == s.generation ==> s.feeder.Unbumped? || OnlyResizedSinceMark(s, w))
    && (w.pc.Sleeping? && w.goal.Until? ==> !w.goal.met(w.checkedGrid))
    && (w.pc.Sleeping? && w.goal.Until? && w.seen == s.generation ==> s.feeder.Unbumped? || OnlyResized(s, w))
    && (w.senderGone || w.pc == Done(Unmatched(true)) ==> !SenderAlive(s))
    && (w.pc == Done(Matched) && w.goal.StableFor? ==> WindowEnd(w) <= s.now && WindowEnd(w) <= w.deadline)
    && (w.pc == Done(Unmatched(false)) ==> w.deadline <= s.now)
  }

  ghost predicate Inv(s: State) {
    && (s.silentResize ==> !SenderAlive(s))
    && s.changedAt <= s.now
    && forall id :: id in s.waiters ==> WaiterOk(s, s.waiters[id])
  }

  lemma WriterKeepsWaiter(s: State, a: Action, t: State, w: Waiter)
    requires (s.silentResize ==> !SenderAlive(s)) && s.changedAt <= s.now
    requires WriterStep(s, a) == Some(t) && WaiterOk(s, w)
    ensures WaiterOk(t, w)
  {}

  lemma WriterKeepsInv(s: State, a: Action, t: State)
    requires Inv(s) && WriterStep(s, a) == Some(t)
    ensures Inv(t)
  {
    assert t.waiters == s.waiters;
    forall id | id in t.waiters ensures WaiterOk(t, t.waiters[id]) {
      WriterKeepsWaiter(s, a, t, s.waiters[id]);
    }
  }

  lemma ChangedKeepsWaiter(s: State, w: Waiter)
    requires WaiterOk(s, w) && w.pc.Sleeping? && OnChanged(s, w).Some?
    ensures WaiterOk(s, OnChanged(s, w).value)
  {}

  lemma TimerKeepsWaiter(s: State, w: Waiter)
    requires WaiterOk(s, w) && w.pc.Sleeping? && OnTimer(s, w).Some?
    ensures WaiterOk(s, OnTimer(s, w).value)
  {}

  /** The acting waiter after a step of its own. */
  lemma ActorKeepsWaiter(s: State, a: Action, t: State)
    requires Inv(s) && WaiterStep(s, a) == Some(t)
    ensures a.id in t.waiters && WaiterOk(s, t.waiters[a.id])
  {
    assert !a.Start? ==> WaiterOk(s, s.waiters[a.id]);
    if a.Changed? {
      ChangedKeepsWaiter(s, s.waiters[a.id]);
    } else if a.Timer? {
      TimerKeepsWaiter(s, s.waiters[a.id]);
    }
  }

  /** Such a step changes nothing but that waiter. */
  lemma WaiterStepFrame(s: State, a: Action, t: State)
    requires WaiterStep(s, a) == Some(t)
    ensures t == s.(waiters := t.waiters)
    ensures forall k :: k in t.waiters && k != a.id ==> k in s.waiters && t.waiters[k] == s.waiters[k]
  {}

  lemma WaiterKeepsInv(s: State, a: Action, t: State)
    requires Inv(s) && WaiterStep(s, a) == Some(t)
    ensures Inv(t)
  {
    WaiterStepFrame(s, a, t);
    ActorKeepsWaiter(s, a, t);
    forall k | k in t.waiters ensures WaiterOk(t, t.waiters[k]) {
      assert k == a.id || WaiterOk(s, s.waiters[k]);
    }
  }

  /** Every step of every process keeps the invariant. */
  lemma StepKeepsInv(s: State, a: Action, t: State)
    requires Inv(s) && Step(s, a) == Some(t)
    ensures Inv(t)
  {
    if a.Start? || a.Mark? || a.Check? || a.Changed? || a.Timer? {
      WaiterKeepsInv(s, a, t);
    } else {
      WriterKeepsInv(s, a, t);
    }
  }

  lemma {:induction false} RunKeepsInv(run: seq<Action>, s: State)
    requires After(INITIAL, run) == Some(s)
    ensures Inv(s)
    decreases |run|
  {
    if run != [] {
      var before := After(INITIAL, run[..|run| - 1]).value;
      RunKeepsInv(run[..|run| - 1], before);
      StepKeepsInv(before, run[|run| - 1], s);
    }
  }

  lemma ReachableWaiter(s: State, id: nat)
    requires Reachable(s) && id in s.waiters
    ensures WaiterOk(s, s.waiters[id])
    ensures (s.silentResize ==> !SenderAlive(s)) && s.changedAt <= s.now
  {
    var run :| After(INITIAL, run) == Some(s);
    RunKeepsInv(run, s);
  }

  // ------------------------------------------------------ main results

  /** No wakeup is lost: in every reachable state in which the sender is alive,
      a waiter asleep with nothing new to see and no writer between its change
      and its bump has its condition false on the current grid. */
  lemma NoLostWakeup(s: State, id: nat)
    requires Reachable(s) && SenderAlive(s)
    requires id in s.waiters && s.waiters[id].pc.Sleeping? && s.waiters[id].goal.Until?
    requires s.waiters[id].seen == s.generation && !BumpPending(s)
    ensures !s.waiters[id].goal.met(s.grid)
  {
    ReachableWaiter(s, id);
  }

  /** A waiter asleep while its condition holds can be woken now, or a writer's
      next steps bump the generation. */
  lemma TrueConditionWakes(s: State, id: nat)
    requires Reachable(s) && SenderAlive(s)
    requires id in s.waiters && s.waiters[id].pc.Sleeping? && s.waiters[id].goal.Until?
    requires s.waiters[id].goal.met(s.grid)
    ensures Step(s, Changed(id)).Some?
         || (s.feeder.Unbumped? && Bumps(s, FeederBump))
         || (s.resizer.Upgraded? && Bumps(s, ResizerBump))
         || (s.resizer.GridResized? && Step(s, UpgradeSender).Some? && Bumps(Step(s, UpgradeSender).value, ResizerBump))
  {
    if s.waiters[id].seen == s.generation && !BumpPending(s) {
      NoLostWakeup(s, id);
    }
    ReachableWaiter(s, id);
  }

  predicate Bumps(s: State, a: Action) {
    Step(s, a).Some? && Step(s, a).value.generation == s.generation + 1
  }

  /** A sleeping waiter saw its condition false on the grid of its last check,
      and the grid has only grown since. */
  lemma SleepingSawFalse(s: State, id: nat)
    requires Reachable(s)
    requires id in s.waiters && s.waiters[id].pc.Sleeping? && s.waiters[id].goal.Until?
    ensures var w := s.waiters[id]; w.checkedGrid <= s.grid && !w.goal.met(w.checkedGrid)
  {
    ReachableWaiter(s, id);
  }

  /** A condition wait that has matched saw its condition true on a grid that the
      present one has grown from. */
  lemma MatchSawTrue(s: State, id: nat)
    requires Reachable(s)
    requires id in s.waiters && s.waiters[id].pc == Done(Matched) && s.waiters[id].goal.Until?
    ensures var w := s.waiters[id]; w.goal.met(w.checkedGrid) && w.checkedGrid <= s.grid
  {
    ReachableWaiter(s, id);
  }

  /** A check, once the terminal is free, decides on the present grid. */
  lemma CheckDecides(s: State, id: nat)
    requires Reachable(s) && s.resizer.Free? && id in s.waiters && s.waiters[id].pc.Checking?
    ensures var t := Step(s, Check(id));
            && t.Some? && id in t.value.waiters && t.value.waiters[id].checkedGrid == s.grid
            && (if s.waiters[id].goal.Until? && s.waiters[id].goal.met(s.grid)
                then t.value.waiters[id].pc == Done(Matched) else t.value.waiters[id].pc == Sleeping)
  {
    ReachableWaiter(s, id);
  }

  /** A waiter asleep with an unseen bump while its condition holds matches in three
      steps of its own when nobody comes between. */
  lemma WokenMatches(s: State, id: nat)
    requires Reachable(s) && s.resizer.Free? && id in s.waiters && s.waiters[id].pc.Sleeping?
    requires s.waiters[id].goal.Until? && s.waiters[id].goal.met(s.grid)
    requires s.waiters[id].seen != s.generation && !s.waiters[id].senderGone
    ensures var t := After(s, [Changed(id)] + [Mark(id)] + [Check(id)]);
            t.Some? && id in t.value.waiters && t.value.waiters[id].pc == Done(Matched)
  {
    var w := s.waiters[id];
    var woken := SetWaiter(s, id, w.(pc := Marking));
    var marked := SetWaiter(woken, id, w.(seen := s.generation, markGrid := s.grid, markTime := s.now, pc := Checking));
    AfterOne(s, [], s, Changed(id));
    assert [] + [Changed(id)] == [Changed(id)];
    AfterOne(s, [Changed(id)], woken, Mark(id));
    AfterOne(s, [Changed(id)] + [Mark(id)], marked, Check(id));
  }

  /** The waiter is about to end because the sender is gone. */
  ghost predicate Ending(s: State, id: nat) {
    && id in s.waiters && s.waiters[id].pc.Sleeping? && s.waiters[id].goal.Until?
    && OnChanged(s, s.waiters[id]) == Some(s.waiters[id].(senderGone := true, pc := Done(Unmatched(true))))
  }

  /** A wait that ends because the sender is gone is right, for every condition
      that was false at its last check, exactly when the grid has not been
      resized since that check: nothing can have been fed to it unseen. */
  lemma EndedIsRightIff(s: State, id: nat)
    requires Reachable(s) && Ending(s, id)
    ensures var w := s.waiters[id];
            (forall met: Grid -> bool :: !met(w.checkedGrid) ==> !met(s.grid)) <==> NotResized(s, w)
    ensures NotResized(s, s.waiters[id]) ==> !s.waiters[id].goal.met(s.grid)
  {
    var w := s.waiters[id];
    ReachableWaiter(s, id);
    if |w.checkedGrid| < |s.grid| {
      ResizedSince(s, w);
      var met: Grid -> bool := (g: Grid) => g == s.grid;
      assert !met(w.checkedGrid) && met(s.grid);
    } else {
      assert s.grid == w.checkedGrid;
    }
  }

  lemma ResizedSince(s: State, w: Waiter)
    requires OnlyResized(s, w) && |w.checkedGrid| < |s.grid|
    ensures !NotResized(s, w)
  {
    assert s.grid[|w.checkedGrid|].Resized?;
  }

  /** A wait is told of a bump it has not seen: it looks again, but for a stability wait
      whose deadline has come, which ends as a plain timeout. */
  lemma BumpIsNoticed(s: State, id: nat)
    requires Reachable(s) && id in s.waiters && s.waiters[id].pc.Sleeping?
    requires s.waiters[id].seen != s.generation && !s.waiters[id].senderGone
    ensures var w, t := s.waiters[id], Step(s, Changed(id));
            && t.Some? && id in t.value.waiters && !t.value.waiters[id].senderGone
            && t.value.waiters[id].pc ==
               if w.goal.StableFor? && w.deadline <= s.now then Done(Unmatched(false)) else Marking
  {
    ReachableWaiter(s, id);
  }

  /** A wait is told at once when the sender goes with nothing unseen: a condition wait
      ends there, and so does a stability wait at or after its deadline; before that
      a stability wait opens a new window, which nothing can interrupt. */
  lemma GoneIsNoticed(s: State, id: nat)
    requires Reachable(s) && !SenderAlive(s) && id in s.waiters && s.waiters[id].pc.Sleeping?
    requires s.waiters[id].seen == s.generation && !s.waiters[id].senderGone
    ensures var w, t := s.waiters[id], Step(s, Changed(id));
            && t.Some? && id in t.value.waiters && t.value.waiters[id].senderGone
            && t.value.waiters[id].pc ==
               if w.goal.Until? || w.deadline <= s.now then Done(Unmatched(true)) else Marking
  {
    ReachableWaiter(s, id);
  }

  function LateResize(): Goal {
    Until((g: Grid) => Resized(80, 24) in g)
  }

  /** A waiter for the resize, and the steps that put it to sleep for good. */
  function SleepingWaiter(): Waiter {
    Waiter(LateResize(), 9, 0, [], [], 0, false, Sleeping)
  }

  function QuietRun(): seq<Action> {
    [Start(0, LateResize(), 9)] + [Mark(0)] + [Check(0)] + [FeederExit]
  }

  function ResizeRun(): seq<Action> {
    QuietRun() + [LockForResize(80, 24)] + [ResizeGrid] + [UpgradeSender] + [Unlock]
  }

  lemma AfterQuietRun()
    ensures After(INITIAL, QuietRun()) == Some(SleptState())
  {
    var w := SleepingWaiter();
    var s1 := SetWaiter(INITIAL, 0, w.(pc := Marking));
    var s2 := SetWaiter(INITIAL, 0, w.(pc := Checking));
    var s3 := SetWaiter(INITIAL, 0, w);
    AfterOne(INITIAL, [], INITIAL, Start(0, LateResize(), 9));
    assert [] + [Start(0, LateResize(), 9)] == [Start(0, LateResize(), 9)];
    assert Step(INITIAL, Start(0, LateResize(), 9)) == Some(s1);
    AfterOne(INITIAL, [Start(0, LateResize(), 9)], s1, Mark(0));
    assert SetWaiter(s1, 0, w.(pc := Checking)) == s2;
    AfterOne(INITIAL, [Start(0, LateResize(), 9)] + [Mark(0)], s2, Check(0));
    assert SetWaiter(s2, 0, w) == s3;
    AfterOne(INITIAL, [Start(0, LateResize(), 9)] + [Mark(0)] + [Check(0)], s3, FeederExit);
  }

  function SleptState(): State {
    SetWaiter(INITIAL, 0, SleepingWaiter()).(feeder := Gone)
  }

  lemma AfterLateGridResize()
    ensures After(INITIAL, QuietRun() + [LockForResize(80, 24)] + [ResizeGrid])
         == Some(SleptState().(grid := [Resized(80, 24)], resizer := GridResized))
  {
    var s := SleptState();
    AfterQuietRun();
    AfterOne(INITIAL, QuietRun(), s, LockForResize(80, 24));
    AfterOne(INITIAL, QuietRun() + [LockForResize(80, 24)], s.(resizer := Locked(80, 24)), ResizeGrid);
    assert s.grid + [Resized(80, 24)] == [Resized(80, 24)];
  }

  lemma AfterSilentUpgrade()
    ensures After(INITIAL, QuietRun() + [LockForResize(80, 24)] + [ResizeGrid] + [UpgradeSender])
         == Some(SleptState().(grid := [Resized(80, 24)], resizer := Finishing(false), silentResize := true))
  {
    AfterLateGridResize();
    AfterOne(INITIAL, QuietRun() + [LockForResize(80, 24)] + [ResizeGrid],
             SleptState().(grid := [Resized(80, 24)], resizer := GridResized), UpgradeSender);
  }

  lemma AfterResizeRun()
    ensures After(INITIAL, ResizeRun()) == Some(SleptState().(grid := [Resized(80, 24)], silentResize := true))
  {
    AfterSilentUpgrade();
    AfterOne(INITIAL, QuietRun() + [LockForResize(80, 24)] + [ResizeGrid] + [UpgradeSender],
             SleptState().(grid := [Resized(80, 24)], resizer := Finishing(false), silentResize := true), Unlock);
  }

  lemma EndsOnChange(s: State)
    requires s == SleptState().(grid := [Resized(80, 24)], silentResize := true)
    ensures Step(s, Changed(0)) ==
            Some(SetWaiter(s, 0, SleepingWaiter().(senderGone := true, pc := Done(Unmatched(true)))))
  {}

  /** The comment in the source calls the grid final once the feeder is gone;
      a resize after that changes it without a bump, and the wait ends as
      "ended" with its condition true. */
  lemma EndedCanBeWrong()
    ensures var s := After(INITIAL, ResizeRun() + [Changed(0)]);
            && s.Some? && 0 in s.value.waiters
            && s.value.waiters[0].pc == Done(Unmatched(true))
            && LateResize().met(s.value.grid)
  {
    var s := SleptState().(grid := [Resized(80, 24)], silentResize := true);
    AfterResizeRun();
    EndsOnChange(s);
    AfterOne(INITIAL, ResizeRun(), s, Changed(0));
  }

  lemma AfterOne(s: State, run: seq<Action>, t: State, a: Action)
    requires After(s, run) == Some(t)
    ensures After(s, run + [a]) == Step(t, a)
  {
    assert (run + [a])[..|run|] == run;
  }

  /** A stability wait reports a match only when a whole window has passed since
      its last mark and the window ends by the deadline; a wait reports a plain
      timeout only at its deadline; and "ended" only when the sender is gone. */
  lemma OutcomesAreHonest(s: State, id: nat)
    requires Reachable(s) && id in s.waiters
    ensures var w := s.waiters[id];
            && (w.pc == Done(Matched) && w.goal.StableFor? ==>
                  w.markTime + w.goal.window <= s.now && w.markTime + w.goal.window <= w.deadline)
            && (w.pc == Done(Unmatched(false)) ==> w.deadline <= s.now)
            && (w.pc == Done(Unmatched(true)) ==> !SenderAlive(s))
  {
    ReachableWaiter(s, id);
  }

  /** What the timer of a sleeping wait does and when: a stability wait whose window
      ends by the deadline matches as soon as it closes, whatever the sender; any
      other wait ends unmatched at its deadline, and not before. */
  lemma TimerDecides(s: State, id: nat)
    requires Reachable(s) && id in s.waiters && s.waiters[id].pc.Sleeping?
    ensures var w, t := s.waiters[id], Step(s, Timer(id));
            if w.goal.StableFor? && w.markTime + w.goal.window <= w.deadline then
              && (t.Some? <==> w.markTime + w.goal.window <= s.now)
              && (t.Some? ==> t.value == s.(waiters := s.waiters[id := w.(pc := Done(Matched))]))
            else
              && (t.Some? <==> w.deadline <= s.now)
              && (t.Some? ==> t.value.waiters[id].pc == Done(Unmatched(w.goal.StableFor? && w.senderGone)))
  {
    ReachableWaiter(s, id);
  }

  ghost predicate OnlyTicks(run: seq<Action>) {
    forall k :: 0 <= k < |run| ==> run[k] == Tick
  }

  lemma {:induction false} AfterTicks(s: State, n: nat) returns (run: seq<Action>)
    ensures |run| == n && OnlyTicks(run) && After(s, run) == Some(s.(now := s.now + n))
  {
    if n == 0 {
      run := [];
    } else {
      run := AfterTicks(s, n - 1);
      OneMoreTick(s, s.(now := s.now + n - 1), run);
      run := run + [Tick];
    }
  }

  lemma OneMoreTick(s: State, t: State, run: seq<Action>)
    requires After(s, run) == Some(t)
    ensures After(s, run + [Tick]) == Some(t.(now := t.now + 1))
  {
    AfterOne(s, run, t, Tick);
  }

  /** A stability wait whose window fits before its deadline matches when nothing
      happens but the passing of time. */
  lemma QuietWindowMatches(s: State, id: nat, n: nat) returns (run: seq<Action>)
    requires Reachable(s) && id in s.waiters && s.waiters[id].pc.Sleeping? && s.waiters[id].goal.StableFor?
    requires s.waiters[id].markTime + s.waiters[id].goal.window <= s.waiters[id].deadline
    requires s.waiters[id].markTime + s.waiters[id].goal.window <= s.now + n
    ensures |run| == n && OnlyTicks(run)
    ensures var t := After(s, run + [Timer(id)]);
            t.Some? && id in t.value.waiters && t.value.waiters[id].pc == Done(Matched)
  {
    run := AfterTicks(s, n);
    AfterOne(s, run, s.(now := s.now + n), Timer(id));
  }

  /** And a match is right: if nothing is unseen, no feed is about to bump and the
      grid was not resized since the mark, then no update came for a whole window. */
  lemma StableMatchIsStable(s: State, id: nat)
    requires Reachable(s) && id in s.waiters && s.waiters[id].pc.Sleeping? && s.waiters[id].goal.StableFor?
    requires s.waiters[id].seen == s.generation && !s.feeder.Unbumped? && NotResizedSinceMark(s, s.waiters[id])
    requires Step(s, Timer(id)).Some? && Step(s, Timer(id)).value.waiters[id].pc == Done(Matched)
    ensures s.changedAt + s.waiters[id].goal.window <= s.now
  {
    ReachableWaiter(s, id);
    StableIsRightIff(s, id);
    TimerDecides(s, id);
  }

  /** When the window of a stability wait closes with no bump unseen and no feed
      about to bump, whether or not the sender is alive, the grid is what it was
      when the window opened exactly when it was not resized since. */
  lemma StableIsRightIff(s: State, id: nat)
    requires Reachable(s)
    requires id in s.waiters && s.waiters[id].pc.Sleeping? && s.waiters[id].goal.StableFor?
    requires s.waiters[id].seen == s.generation && !s.feeder.Unbumped?
    ensures s.grid == s.waiters[id].markGrid <==> NotResizedSinceMark(s, s.waiters[id])
  {
    var w := s.waiters[id];
    ReachableWaiter(s, id);
    if |w.markGrid| < |s.grid| {
      assert s.grid[|w.markGrid|].Resized?;
    } else {
      assert s.grid == w.markGrid;
    }
  }

  /** A stability wait that has learned that the sender is gone, and waits out the
      rest of its window. */
  function OutwaitingWaiter(): Waiter {
    Waiter(StableFor(1), 9, 0, [], [], 0, true, Sleeping)
  }

  function OutwaitRun(): seq<Action> {
    [Start(0, StableFor(1), 9)] + [Mark(0)] + [FeederExit] + [Changed(0)] + [Mark(0)]
  }

  function OutwaitState(): State {
    SetWaiter(INITIAL, 0, OutwaitingWaiter()).(feeder := Gone)
  }

  lemma AfterWindowOpens()
    ensures After(INITIAL, [Start(0, StableFor(1), 9)] + [Mark(0)])
         == Some(SetWaiter(INITIAL, 0, OutwaitingWaiter().(senderGone := false)))
  {
    var w := OutwaitingWaiter().(senderGone := false);
    var s1 := SetWaiter(INITIAL, 0, w.(pc := Marking));
    AfterOne(INITIAL, [], INITIAL, Start(0, StableFor(1), 9));
    assert [] + [Start(0, StableFor(1), 9)] == [Start(0, StableFor(1), 9)];
    AfterOne(INITIAL, [Start(0, StableFor(1), 9)], s1, Mark(0));
    assert SetWaiter(s1, 0, w) == SetWaiter(INITIAL, 0, w);
  }

  lemma AfterOutwaitRun()
    ensures After(INITIAL, OutwaitRun()) == Some(OutwaitState())
  {
    var w := OutwaitingWaiter();
    var run := [Start(0, StableFor(1), 9)] + [Mark(0)];
    var open := SetWaiter(INITIAL, 0, w.(senderGone := false));
    var gone := open.(feeder := Gone);
    var told := SetWaiter(gone, 0, w.(pc := Marking));
    AfterWindowOpens();
    AfterOne(INITIAL, run, open, FeederExit);
    AfterOne(INITIAL, run + [FeederExit], gone, Changed(0));
    AfterOne(INITIAL, run + [FeederExit] + [Changed(0)], told, Mark(0));
    assert SetWaiter(told, 0, w) == OutwaitState();
  }

  lemma AfterWindowResize()
    ensures After(INITIAL, OutwaitRun() + [LockForResize(80, 24)] + [ResizeGrid])
         == Some(OutwaitState().(grid := [Resized(80, 24)], resizer := GridResized))
  {
    var run, s := OutwaitRun(), OutwaitState();
    AfterOutwaitRun();
    AfterOne(INITIAL, run, s, LockForResize(80, 24));
    AfterOne(INITIAL, run + [LockForResize(80, 24)], s.(resizer := Locked(80, 24)), ResizeGrid);
    assert s.grid + [Resized(80, 24)] == [Resized(80, 24)];
  }

  /** The comment in the source says that no grid update comes once the sender is
      gone; a resize within the window that is left does, and the wait matches. */
  lemma StableCanBeWrong()
    ensures var s := After(INITIAL, OutwaitRun() + [LockForResize(80, 24)] + [ResizeGrid] + [Tick] + [Timer(0)]);
            && s.Some? && 0 in s.value.waiters
            && s.value.waiters[0].pc == Done(Matched)
            && s.value.grid == [Resized(80, 24)] && s.value.waiters[0].markGrid == []
  {
    var run := OutwaitRun() + [LockForResize(80, 24)] + [ResizeGrid];
    var resized := OutwaitState().(grid := [Resized(80, 24)], resizer := GridResized);
    AfterWindowResize();
    AfterOne(INITIAL, run, resized, Tick);
    AfterOne(INITIAL, run + [Tick], resized.(now := 1), Timer(0));
  }

  /** When the window of a stability wait closes with no bump unseen, none
      pending and the sender alive, the grid is what it was when the window opened. */
  lemma StableMeansUnchanged(s: State, id: nat)
    requires Reachable(s) && SenderAlive(s) && !BumpPending(s)
    requires id in s.waiters && s.waiters[id].pc.Sleeping? && s.waiters[id].goal.StableFor?
    requires s.waiters[id].seen == s.generation
    ensures s.grid == s.waiters[id].markGrid
  {
    ReachableWaiter(s, id);
  }
}
