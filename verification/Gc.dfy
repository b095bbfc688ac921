/** Worktree garbage collection: a sweep of dead records, then a guarded pass
    over the expired ones, against a database and a disk that others change. */
module Gc {
  import opened Wrappers
  import opened Sequences

  const I64_MIN: int := -0x8000_0000_0000_0000
  const I64_MAX: int := 0x7fff_ffff_ffff_ffff
  const I32_MAX: nat := 0x7fff_ffff

  /** A path as its components: a prefix is an ancestor. */
  type Path = seq<string>

  datatype Record = Record(id: string, path: Path, creator: Option<nat>, createdAt: int, lastAccessed: Option<int>, alive: bool)

  /** The database (rows in listing order, what it allows now, whether it is the
      default one), the disk (existing paths, those whose removal fails, those
      that go even when it fails, symbolic links) and the process table. */
  datatype State = State(
    rows: seq<Record>, readable: bool, writable: bool, isDefault: bool,
    disk: set<Path>, stuck: set<Path>, fragile: set<Path>, links: map<Path, Path>,
    pids: set<nat>, cwds: seq<Path>)

  datatype Options = Options(maxAge: Option<int>, force: bool, dryRun: bool)

  datatype Report = Report(dead: nat, expired: nat, skipped: nat, failed: nat)

  // ------------------------------------------------------ database

  function Kept(rows: seq<Record>, keep: Record -> bool): (kept: seq<Record>)
    ensures forall r :: r in kept <==> r in rows && keep(r)
    ensures |kept| <= |rows|
  {
    if rows == [] then []
    else
      var last := rows[|rows| - 1];
      Kept(rows[..|rows| - 1], keep) + if keep(last) then [last] else []
  }

  predicate Alive(r: Record) {
    r.alive
  }

  predicate Dead(r: Record) {
    !r.alive
  }

  function OtherId(id: string): Record -> bool {
    (r: Record) => r.id != id
  }

  function OtherPath(path: Path): Record -> bool {
    (r: Record) => r.path != path
  }

  function AliveRows(rows: seq<Record>): seq<Record> {
    Kept(rows, Alive)
  }

  function DeadRows(rows: seq<Record>): seq<Record> {
    Kept(rows, Dead)
  }

  /** `id` is the primary key and `path` is unique. */
  ghost predicate DistinctKeys(rows: seq<Record>) {
    forall i, j :: 0 <= i < j < |rows| ==> rows[i].id != rows[j].id && rows[i].path != rows[j].path
  }

  function GetById(rows: seq<Record>, id: string): (r: Option<Record>)
    ensures r.Some? ==> r.value in rows && r.value.id == id
    ensures r.None? ==> forall x :: x in rows ==> x.id != id
  {
    if rows == [] then None
    else if rows[0].id == id then Some(rows[0])
    else GetById(rows[1..], id)
  }

  function WithoutId(rows: seq<Record>, id: string): seq<Record> {
    Kept(rows, OtherId(id))
  }

  function WithoutPath(rows: seq<Record>, path: Path): seq<Record> {
    Kept(rows, OtherPath(path))
  }

  /** Delete by id: whether a row went, or `None` for a database error. */
  function Unregister(s: State, id: string): (State, Option<bool>) {
    if !s.writable then (s, None)
    else (s.(rows := WithoutId(s.rows, id)), Some(GetById(s.rows, id).Some?))
  }

  /** Delete by path in the default database, errors ignored. */
  function UnregisterPath(s: State, path: Path): State {
    if s.isDefault && s.writable then s.(rows := WithoutPath(s.rows, path)) else s
  }

  function MarkedDead(rows: seq<Record>, id: string): (marked: seq<Record>)
    ensures |marked| == |rows|
    ensures forall i :: 0 <= i < |rows| ==> marked[i] == if rows[i].id == id then rows[i].(alive := false) else rows[i]
  {
    if rows == [] then []
    else
      var last := rows[|rows| - 1];
      MarkedDead(rows[..|rows| - 1], id) + [if last.id == id then last.(alive := false) else last]
  }

  // ------------------------------------------------------ liveness

  function Max(a: int, b: int): int {
    if a < b then b else a
  }

  function LastActive(r: Record): int {
    Max(if r.lastAccessed.Some? then r.lastAccessed.value else r.createdAt, r.createdAt)
  }

  predicate PidAlive(s: State, pid: nat) {
    pid != 0 && pid <= I32_MAX && pid in s.pids
  }

  /** The physical form of a path that exists. */
  function Canonical(s: State, path: Path): Path {
    if path in s.disk && path in s.links then s.links[path] else path
  }

  predicate CwdWithin(s: State, path: Path, cwds: seq<Path>) {
    exists cwd :: cwd in cwds && (path <= cwd || Canonical(s, path) <= cwd)
  }

  predicate Guarded(s: State, r: Record, cwds: seq<Path>) {
    (r.creator.Some? && PidAlive(s, r.creator.value)) || CwdWithin(s, r.path, cwds)
  }

  predicate Reclaimable(s: State, r: Record, cutoff: int, cwds: seq<Path>) {
    LastActive(r) < cutoff && !Guarded(s, r, cwds)
  }

  /** `now - max(age, 0)`, saturating in 64 bits. */
  function Cutoff(now: int, maxAge: int): int {
    Max(now - Max(maxAge, 0), I64_MIN)
  }

  /** A clock value is never below the cutoff it gives, whatever the age. */
  lemma CutoffNotAhead(now: int, maxAge: int)
    requires I64_MIN <= now <= I64_MAX && I64_MIN <= maxAge <= I64_MAX
    ensures I64_MIN <= Cutoff(now, maxAge) <= now
    ensures maxAge <= 0 ==> Cutoff(now, maxAge) == now
    ensures maxAge >= 0 && now - maxAge >= I64_MIN ==> Cutoff(now, maxAge) == now - maxAge
  {}

  // ------------------------------------------------------ disk

  /** Removing a directory takes everything below it. */
  function Removed(disk: set<Path>, path: Path): set<Path> {
    set q | q in disk && !(path <= q)
  }

  /** A removal that fails may have deleted any part of the tree. */
  function PartlyRemoved(disk: set<Path>, path: Path, fragile: set<Path>): set<Path> {
    set q | q in disk && !(path <= q && q in fragile)
  }

  /** Remove a worktree, and only after that its record. */
  function RemoveWorktree(s: State, path: Path): (State, bool) {
    if path in s.stuck then (s.(disk := PartlyRemoved(s.disk, path, s.fragile)), false)
    else (UnregisterPath(s.(disk := Removed(s.disk, path)), path), true)
  }

  // ------------------------------------------------------ one candidate

  /** The settings of a run: `scan` is its first process scan. */
  datatype Run = Run(force: bool, dryRun: bool, cutoff: int, scan: seq<Path>)

  datatype Outcome = Recent | Skipped | Ignored | Expired | RemoveFailed

  /** `tried` is the state in which a removal was tried, if one was. */
  datatype Turn = Turn(state: State, outcome: Outcome, tried: Option<State>)

  /** The checks made on the listed row; `None` to go on. */
  function FirstPass(s: State, rec: Record, run: Run): Option<Outcome> {
    if LastActive(rec) >= run.cutoff then Some(Recent)
    else if !run.force && Guarded(s, rec, run.scan) then Some(Skipped)
    else if run.dryRun then Some(if rec.path in s.disk then Expired else Ignored)
    else None
  }

  /** The check made on the row read again; `None` to go on. */
  function SecondPass(s: State, rec: Record, run: Run): Option<Outcome> {
    if run.force then None
    else if !s.readable then Some(Ignored)
    else
      match GetById(s.rows, rec.id)
      case None => Some(Ignored)
      case Some(row) => if Reclaimable(s, row, run.cutoff, s.cwds) then None else Some(Skipped)
  }

  function Reclaim(s: State, rec: Record): Turn {
    if rec.path in s.disk then
      var (after, ok) := RemoveWorktree(s, rec.path);
      Turn(after, if ok then Expired else RemoveFailed, Some(s))
    else
      var (after, gone) := Unregister(s, rec.id);
      Turn(after, if gone == Some(true) then Expired else Ignored, Some(s))
  }

  /** One candidate; `move` is what others do between the two passes. */
  function TurnOf(s: State, move: State -> State, rec: Record, run: Run): Turn {
    match FirstPass(s, rec, run)
    case Some(outcome) => Turn(s, outcome, None)
    case None =>
      var later := move(s);
      match SecondPass(later, rec, run)
      case Some(outcome) => Turn(later, outcome, None)
      case None => Reclaim(later, rec)
  }

  function Counted(report: Report, outcome: Outcome): Report {
    match outcome
    case Skipped => report.(skipped := report.skipped + 1)
    case Expired => report.(expired := report.expired + 1)
    case RemoveFailed => report.(failed := report.failed + 1)
    case Recent => report
    case Ignored => report
  }

  // ------------------------------------------------------ the passes

  /** What others do: before a candidate, and between its two passes. */
  datatype Others = Others(before: (nat, State) -> State, between: (nat, State) -> State)

  function Between(others: Others, n: nat): State -> State {
    s => others.between(n, s)
  }

  datatype Attempt = Attempt(rec: Record, at: State)

  datatype Progress = Progress(state: State, report: Report, attempts: seq<Attempt>)

  function AfterTurn(p: Progress, t: Turn, rec: Record): Progress {
    Progress(t.state, Counted(p.report, t.outcome),
             match t.tried
             case None => p.attempts
             case Some(at) => p.attempts + [Attempt(rec, at)])
  }

  /** The first `n` candidates of the list. */
  function ExpiredPass(p: Progress, list: seq<Record>, n: nat, others: Others, run: Run): Progress
    requires n <= |list|
  {
    if n == 0 then p
    else
      NextProgress(ExpiredPass(p, list, n - 1, others, run), list[n - 1], n - 1, others, run)
  }

  /** Turn `n` of the pass. */
  function NextProgress(q: Progress, rec: Record, n: nat, others: Others, run: Run): Progress {
    AfterTurn(q, TurnOf(others.before(n, q.state), Between(others, n), rec, run), rec)
  }

  function SweptRow(r: Record, disk: set<Path>): Record {
    if r.path in disk then r else r.(alive := false)
  }

  /** Mark alive rows whose path is gone. */
  function Swept(rows: seq<Record>, disk: set<Path>): (swept: seq<Record>)
    ensures |swept| == |rows|
    ensures forall i :: 0 <= i < |rows| ==> swept[i] == SweptRow(rows[i], disk)
  {
    if rows == [] then []
    else
      var last := rows[|rows| - 1];
      Swept(rows[..|rows| - 1], disk) + [SweptRow(last, disk)]
  }

  /** Unregister the first `n` listed dead rows, counting those that went. */
  function DeadPass(p: Progress, list: seq<Record>, n: nat): Progress
    requires n <= |list|
  {
    if n == 0 then p
    else
      DropRow(DeadPass(p, list, n - 1), list[n - 1])
  }

  function DropRow(q: Progress, rec: Record): Progress {
    var (after, gone) := Unregister(q.state, rec.id);
    Progress(after, if gone == Some(true) then q.report.(dead := q.report.dead + 1) else q.report, q.attempts)
  }

  // ------------------------------------------------------ safety, under any interference

  /** The row read again just before the removal was tried. */
  function ReadAgain(a: Attempt): Option<Record> {
    GetById(a.at.rows, a.rec.id)
  }

  ghost predicate Justified(a: Attempt, run: Run) {
    ReadAgain(a).Some? && Reclaimable(a.at, ReadAgain(a).value, run.cutoff, a.at.cwds)
  }

  /** Without force, a removal is only tried on a worktree that its row, read
      again in the state of that moment, shows expired and unguarded. */
  lemma {:induction false} TriedOnlyReclaimable(p: Progress, list: seq<Record>, n: nat, others: Others, run: Run)
    requires n <= |list| && !run.force
    requires forall a :: a in p.attempts ==> Justified(a, run)
    ensures forall a :: a in ExpiredPass(p, list, n, others, run).attempts ==> Justified(a, run)
  {
    if n > 0 {
      TriedOnlyReclaimable(p, list, n - 1, others, run);
      var q := ExpiredPass(p, list, n - 1, others, run);
      var s := others.before(n - 1, q.state);
      var rec := list[n - 1];
      var t := TurnOf(s, Between(others, n - 1), rec, run);
      if t.tried.Some? {
        assert Justified(Attempt(rec, t.tried.value), run);
      }
    }
  }

  /** Every process in the tree `listed` is seen by a check of the path `row`. */
  predicate Covers(s: State, row: Path, listed: Path) {
    && (row <= listed || Canonical(s, row) <= listed)
    && (row <= Canonical(s, listed) || Canonical(s, row) <= Canonical(s, listed))
  }

  /** A check of one path vouches for another, whatever processes run, exactly
      when it covers both the other path and its physical form. */
  lemma CoversIff(s: State, row: Path, listed: Path)
    ensures Covers(s, row, listed) <==>
            forall cwds: seq<Path> :: !CwdWithin(s, row, cwds) ==> !CwdWithin(s, listed, cwds)
  {
    if Covers(s, row, listed) {
      forall cwds: seq<Path> | CwdWithin(s, listed, cwds)
        ensures CwdWithin(s, row, cwds)
      {
        var cwd :| cwd in cwds && (listed <= cwd || Canonical(s, listed) <= cwd);
        SeenAbove(s, row, listed, cwd);
      }
    } else {
      SeenAlone(s, listed);
      var cwds := if row <= listed || Canonical(s, row) <= listed then [Canonical(s, listed)] else [listed];
      assert cwds[0] in cwds && CwdWithin(s, listed, cwds);
    }
  }

  lemma SeenAbove(s: State, row: Path, listed: Path, cwd: Path)
    requires Covers(s, row, listed) && (listed <= cwd || Canonical(s, listed) <= cwd)
    ensures row <= cwd || Canonical(s, row) <= cwd
  {
    var reach := if listed <= cwd then listed else Canonical(s, listed);
    PrefixOfPrefix(if row <= reach then row else Canonical(s, row), reach, cwd);
  }

  lemma SeenAlone(s: State, path: Path)
    ensures CwdWithin(s, path, [path]) && CwdWithin(s, path, [Canonical(s, path)])
  {
    assert path in [path] && Canonical(s, path) in [Canonical(s, path)];
  }

  lemma PrefixOfPrefix(a: Path, b: Path, c: Path)
    requires a <= b && b <= c
    ensures a <= c
  {}

  /** Whatever processes had run, passing the re-check would have meant that none
      sits in the tree about to be removed. */
  ghost predicate Protected(a: Attempt, run: Run) {
    ReadAgain(a).Some? && forall cwds: seq<Path> ::
      Reclaimable(a.at, ReadAgain(a).value, run.cutoff, cwds) ==> !CwdWithin(a.at, a.rec.path, cwds)
  }

  lemma ProtectedIff(a: Attempt, run: Run)
    requires Justified(a, run)
    ensures Protected(a, run) <==> Covers(a.at, ReadAgain(a).value.path, a.rec.path)
  {
    var row := ReadAgain(a).value;
    CoversIff(a.at, row.path, a.rec.path);
    forall cwds: seq<Path>
      ensures Reclaimable(a.at, row, run.cutoff, cwds) <==> !CwdWithin(a.at, row.path, cwds)
    {
    }
  }

  /** Over the whole pass: a tree that is tried is protected by its re-check
      exactly when the row read again covers the listed path, and then no process
      sits in it. */
  lemma AttemptsProtectedIff(p: Progress, list: seq<Record>, n: nat, others: Others, run: Run, a: Attempt)
    requires n <= |list| && !run.force && p.attempts == []
    requires a in ExpiredPass(p, list, n, others, run).attempts
    ensures Justified(a, run)
    ensures Protected(a, run) <==> Covers(a.at, ReadAgain(a).value.path, a.rec.path)
    ensures Protected(a, run) ==> !CwdWithin(a.at, a.rec.path, a.at.cwds)
  {
    TriedOnlyReclaimable(p, list, n, others, run);
    ProtectedIff(a, run);
  }

  /** Registering stamps a row with the time, and an id made from a path is not
      reused for another: a row that has a listed id has the listed path, or is no
      older than the run. */
  ghost predicate FreshIfMoved(s: State, list: seq<Record>, now: int) {
    forall r, l {:trigger SamePlaceOrNew(r, l, now)} :: r in s.rows && l in list ==> SamePlaceOrNew(r, l, now)
  }

  predicate SamePlaceOrNew(r: Record, l: Record, now: int) {
    r.id == l.id ==> r.path == l.path || r.createdAt >= now
  }

  /** What others do keeps it so. */
  ghost predicate Stamping(others: Others, list: seq<Record>, now: int) {
    forall n: nat :: StampingAt(others, list, now, n)
  }

  ghost predicate StampingAt(others: Others, list: seq<Record>, now: int, n: nat) {
    && (forall s :: FreshIfMoved(s, list, now) ==> FreshIfMoved(others.before(n, s), list, now))
    && (forall s :: FreshIfMoved(s, list, now) ==> FreshIfMoved(others.between(n, s), list, now))
  }

  /** Listing rows with distinct keys gives a start where it is so. */
  lemma ListedIsFresh(rows: seq<Record>, s: State, now: int)
    requires s.rows == rows && DistinctKeys(rows)
    ensures FreshIfMoved(s, AliveRows(rows), now)
  {}

  /** An attempt without force, made while it is so. */
  ghost predicate InPlace(a: Attempt, list: seq<Record>, now: int, run: Run) {
    a.rec in list && FreshIfMoved(a.at, list, now) && Justified(a, run)
  }

  lemma TurnInPlace(s: State, move: State -> State, list: seq<Record>, n: nat, now: int, run: Run)
    requires n < |list| && !run.force && FreshIfMoved(s, list, now) && FreshIfMoved(move(s), list, now)
    ensures var t := TurnOf(s, move, list[n], run);
            && FreshIfMoved(t.state, list, now)
            && (t.tried.Some? ==> InPlace(Attempt(list[n], t.tried.value), list, now, run))
  {
    var t := TurnOf(s, move, list[n], run);
    if t.tried.Some? {
      RecordOutlivesWorktree(move(s), list[n]);
      RowsShrink(move(s), list[n]);
    }
  }

  lemma RowsShrink(s: State, rec: Record)
    ensures forall r :: r in Reclaim(s, rec).state.rows ==> r in s.rows
  {}

  ghost predicate AllInPlace(q: Progress, list: seq<Record>, now: int, run: Run) {
    FreshIfMoved(q.state, list, now) && forall a :: a in q.attempts ==> InPlace(a, list, now, run)
  }

  lemma StepInPlace(p: Progress, list: seq<Record>, n: nat, others: Others, run: Run, now: int)
    requires n < |list| && !run.force && Stamping(others, list, now)
    requires AllInPlace(ExpiredPass(p, list, n, others, run), list, now, run)
    ensures AllInPlace(ExpiredPass(p, list, n + 1, others, run), list, now, run)
  {
    assert StampingAt(others, list, now, n);
    TurnInPlace(others.before(n, ExpiredPass(p, list, n, others, run).state), Between(others, n), list, n, now, run);
  }

  lemma {:induction false} AttemptsInPlace(p: Progress, list: seq<Record>, n: nat, others: Others, run: Run, now: int)
    requires n <= |list| && !run.force && AllInPlace(p, list, now, run) && Stamping(others, list, now)
    ensures AllInPlace(ExpiredPass(p, list, n, others, run), list, now, run)
  {
    if n > 0 {
      AttemptsInPlace(p, list, n - 1, others, run, now);
      StepInPlace(p, list, n - 1, others, run, now);
    }
  }

  lemma InPlaceIsProtected(a: Attempt, list: seq<Record>, now: int, run: Run)
    requires InPlace(a, list, now, run) && run.cutoff <= now
    ensures ReadAgain(a).value.path == a.rec.path
    ensures Protected(a, run) && !CwdWithin(a.at, a.rec.path, a.at.cwds)
  {
    assert SamePlaceOrNew(ReadAgain(a).value, a.rec, now);
    assert a.rec.path <= a.rec.path;
    assert Canonical(a.at, a.rec.path) <= Canonical(a.at, a.rec.path);
    ProtectedIff(a, run);
  }

  /** While others register worktrees only with the time and their own id, the row
      read again is at the listed path, and no process sits in a tree that is
      tried, whatever else others do meanwhile. */
  lemma AttemptsAreVacant(p: Progress, list: seq<Record>, n: nat, others: Others, run: Run, now: int, a: Attempt)
    requires n <= |list| && !run.force && p.attempts == [] && run.cutoff <= now
    requires FreshIfMoved(p.state, list, now) && Stamping(others, list, now)
    requires a in ExpiredPass(p, list, n, others, run).attempts
    ensures Justified(a, run) && ReadAgain(a).value.path == a.rec.path
    ensures Protected(a, run) && !CwdWithin(a.at, a.rec.path, a.at.cwds)
  {
    AttemptsInPlace(p, list, n, others, run, now);
    InPlaceIsProtected(a, list, now, run);
  }

  /** The re-check guards the path of the row read again, but the removal takes
      the path that was listed: with a row written elsewhere under the same id
      meanwhile, and with an old time, a tree with a process in it is removed. */
  lemma MovedRowIsNotGuarded()
    ensures var rec := Record("w", ["a"], None, 0, None, true);
            var s := State([rec.(path := ["b"])], true, true, true, {["a"]}, {}, {}, map[], {}, [["a"]]);
            var t := TurnOf(s, x => x, rec, Run(false, false, 1, []));
            && t.tried == Some(s) && t.outcome == Expired
            && CwdWithin(s, rec.path, s.cwds) && rec.path !in t.state.disk
  {
    var rec := Record("w", ["a"], None, 0, None, true);
    var s := State([rec.(path := ["b"])], true, true, true, {["a"]}, {}, {}, map[], {}, [["a"]]);
    assert ["a"] in s.cwds && ["a"] <= ["a"];
    assert GetById(s.rows, "w") == Some(rec.(path := ["b"]));
    assert ["b"][0] != ["a"][0];
    assert !CwdWithin(s, ["b"], s.cwds);
  }

  /** A dry run never tries. */
  lemma {:induction false} DryRunTriesNothing(p: Progress, list: seq<Record>, n: nat, others: Others, run: Run)
    requires n <= |list| && run.dryRun
    ensures ExpiredPass(p, list, n, others, run).attempts == p.attempts
    ensures ExpiredPass(p, list, n, others, run).report.failed == p.report.failed
  {
    if n > 0 {
      DryRunTriesNothing(p, list, n - 1, others, run);
    }
  }

  /** What only the others do to the state. */
  function Untouched(s: State, n: nat, others: Others): State {
    if n == 0 then s else others.before(n - 1, Untouched(s, n - 1, others))
  }

  /** A dry run changes nothing itself. */
  lemma {:induction false} DryRunChangesNothing(p: Progress, list: seq<Record>, n: nat, others: Others, run: Run)
    requires n <= |list| && run.dryRun
    ensures ExpiredPass(p, list, n, others, run).state == Untouched(p.state, n, others)
  {
    if n > 0 {
      DryRunChangesNothing(p, list, n - 1, others, run);
    }
  }

  /** What leaves with a reclaimed candidate: only paths at or below its own; and
      only rows with its id or its path, once that path is off the disk. A failed
      removal keeps every record, whatever it deleted. */
  lemma RecordOutlivesWorktree(s: State, rec: Record)
    ensures var t := Reclaim(s, rec);
            && t.tried == Some(s)
            && (t.outcome == RemoveFailed ==> t.state.rows == s.rows)
            && t.state.disk <= s.disk
            && (forall q :: q in s.disk && q !in t.state.disk ==> rec.path <= q)
            && (forall r :: r in s.rows && r !in t.state.rows ==>
                  t.outcome == Expired && (r.id == rec.id || r.path == rec.path) && rec.path !in t.state.disk)
  {
  }

  /** The others took `r` at turn `k`: before it, or between its passes. */
  ghost predicate LostToOthers(others: Others, k: nat, s: State, rec: Record, run: Run, r: Record) {
    var first := others.before(k, s);
    r in s.rows && (r !in first.rows || (FirstPass(first, rec, run).None? && r !in others.between(k, first).rows))
  }

  /** The attempt took `r`: it has the candidate's id or path. */
  predicate LostToAttempt(a: Attempt, r: Record) {
    r in a.at.rows && (r.id == a.rec.id || r.path == a.rec.path)
  }

  predicate TakenByAttempt(attempts: seq<Attempt>, r: Record) {
    exists a :: a in attempts && LostToAttempt(a, r)
  }

  /** Every row that leaves in the course of a pass was taken by the others, at
      some turn, or by an attempt to remove a worktree with its id or path. */
  ghost predicate RowAccounted(p: Progress, list: seq<Record>, n: nat, others: Others, run: Run, r: Record)
    requires n <= |list|
  {
    || (exists k: nat :: k < n && LostToOthers(others, k, ExpiredPass(p, list, k, others, run).state, list[k], run, r))
    || TakenByAttempt(ExpiredPass(p, list, n, others, run).attempts, r)
  }

  lemma TurnLoses(q: Progress, rec: Record, n: nat, others: Others, run: Run, r: Record)
    requires r in q.state.rows
    ensures var after := AfterTurn(q, TurnOf(others.before(n, q.state), Between(others, n), rec, run), rec);
            r in after.state.rows || LostToOthers(others, n, q.state, rec, run, r) || TakenByAttempt(after.attempts, r)
  {
    var s := others.before(n, q.state);
    var t := TurnOf(s, Between(others, n), rec, run);
    if t.tried.Some? {
      RecordOutlivesWorktree(others.between(n, s), rec);
      assert Attempt(rec, t.tried.value) in q.attempts + [Attempt(rec, t.tried.value)];
    }
  }

  lemma RowLostNow(p: Progress, list: seq<Record>, n: nat, others: Others, run: Run, r: Record)
    requires 0 < n <= |list| && r in ExpiredPass(p, list, n - 1, others, run).state.rows
    requires r !in ExpiredPass(p, list, n, others, run).state.rows
    ensures RowAccounted(p, list, n, others, run, r)
  {
    var k: nat := n - 1;
    TurnLoses(ExpiredPass(p, list, k, others, run), list[k], k, others, run, r);
    assert LostToOthers(others, k, ExpiredPass(p, list, k, others, run).state, list[k], run, r)
        || TakenByAttempt(ExpiredPass(p, list, n, others, run).attempts, r);
  }

  lemma RowAccountedStays(p: Progress, list: seq<Record>, n: nat, others: Others, run: Run, r: Record)
    requires 0 < n <= |list| && RowAccounted(p, list, n - 1, others, run, r)
    ensures RowAccounted(p, list, n, others, run, r)
  {
    MoreAttempts(p, list, n, others, run);
  }

  lemma {:induction false} RowsLeaveForAReason(p: Progress, list: seq<Record>, n: nat, others: Others, run: Run, r: Record)
    requires n <= |list| && r in p.state.rows && r !in ExpiredPass(p, list, n, others, run).state.rows
    ensures RowAccounted(p, list, n, others, run, r)
  {
    if n > 0 {
      if r in ExpiredPass(p, list, n - 1, others, run).state.rows {
        RowLostNow(p, list, n, others, run, r);
      } else {
        RowsLeaveForAReason(p, list, n - 1, others, run, r);
        RowAccountedStays(p, list, n, others, run, r);
      }
    }
  }

  lemma MoreAttempts(p: Progress, list: seq<Record>, n: nat, others: Others, run: Run)
    requires 0 < n <= |list|
    ensures forall a :: a in ExpiredPass(p, list, n - 1, others, run).attempts ==>
                a in ExpiredPass(p, list, n, others, run).attempts
  {}

  /** The same for what leaves the disk: only at or below an attempted path. */
  ghost predicate PathLostToOthers(others: Others, k: nat, s: State, rec: Record, run: Run, q: Path) {
    var first := others.before(k, s);
    q in s.disk && (q !in first.disk || (FirstPass(first, rec, run).None? && q !in others.between(k, first).disk))
  }

  predicate ClearedByAttempt(attempts: seq<Attempt>, q: Path) {
    exists a :: a in attempts && q in a.at.disk && a.rec.path <= q
  }

  ghost predicate PathAccounted(p: Progress, list: seq<Record>, n: nat, others: Others, run: Run, q: Path)
    requires n <= |list|
  {
    || (exists k: nat :: k < n && PathLostToOthers(others, k, ExpiredPass(p, list, k, others, run).state, list[k], run, q))
    || ClearedByAttempt(ExpiredPass(p, list, n, others, run).attempts, q)
  }

  lemma TurnClears(p: Progress, rec: Record, n: nat, others: Others, run: Run, q: Path)
    requires q in p.state.disk
    ensures var after := AfterTurn(p, TurnOf(others.before(n, p.state), Between(others, n), rec, run), rec);
            q in after.state.disk || PathLostToOthers(others, n, p.state, rec, run, q) || ClearedByAttempt(after.attempts, q)
  {
    var s := others.before(n, p.state);
    var t := TurnOf(s, Between(others, n), rec, run);
    if t.tried.Some? {
      RecordOutlivesWorktree(others.between(n, s), rec);
      assert Attempt(rec, t.tried.value) in p.attempts + [Attempt(rec, t.tried.value)];
    }
  }

  lemma PathLostNow(p: Progress, list: seq<Record>, n: nat, others: Others, run: Run, q: Path)
    requires 0 < n <= |list| && q in ExpiredPass(p, list, n - 1, others, run).state.disk
    requires q !in ExpiredPass(p, list, n, others, run).state.disk
    ensures PathAccounted(p, list, n, others, run, q)
  {
    var k: nat := n - 1;
    TurnClears(ExpiredPass(p, list, k, others, run), list[k], k, others, run, q);
    assert PathLostToOthers(others, k, ExpiredPass(p, list, k, others, run).state, list[k], run, q)
        || ClearedByAttempt(ExpiredPass(p, list, n, others, run).attempts, q);
  }

  lemma PathAccountedStays(p: Progress, list: seq<Record>, n: nat, others: Others, run: Run, q: Path)
    requires 0 < n <= |list| && PathAccounted(p, list, n - 1, others, run, q)
    ensures PathAccounted(p, list, n, others, run, q)
  {
    MoreAttempts(p, list, n, others, run);
  }

  lemma {:induction false} PathsLeaveForAReason(p: Progress, list: seq<Record>, n: nat, others: Others, run: Run, q: Path)
    requires n <= |list| && q in p.state.disk && q !in ExpiredPass(p, list, n, others, run).state.disk
    ensures PathAccounted(p, list, n, others, run, q)
  {
    if n > 0 {
      if q in ExpiredPass(p, list, n - 1, others, run).state.disk {
        PathLostNow(p, list, n, others, run, q);
      } else {
        PathsLeaveForAReason(p, list, n - 1, others, run, q);
        PathAccountedStays(p, list, n, others, run, q);
      }
    }
  }

  ghost predicate AnyTaken(p: Progress, list: seq<Record>, n: nat, others: Others, run: Run, q: Path)
    requires n <= |list|
  {
    exists k: nat :: k < n && PathLostToOthers(others, k, ExpiredPass(p, list, k, others, run).state, list[k], run, q)
  }

  /** A removal tried on `r` itself, expired and unguarded when read again. */
  ghost predicate OwnAttempt(attempts: seq<Attempt>, r: Record, run: Run) {
    exists a :: a in attempts && a.rec == r && Justified(a, run)
  }

  /** A removal tried on a listed worktree strictly above `r`, on its own row. */
  ghost predicate AttemptAbove(attempts: seq<Attempt>, list: seq<Record>, r: Record, run: Run) {
    exists a :: a in attempts && a.rec in list && a.rec.path < r.path && Justified(a, run)
  }

  lemma {:induction false} AttemptsAreListed(p: Progress, list: seq<Record>, n: nat, others: Others, run: Run)
    requires n <= |list| && p.attempts == []
    ensures forall a :: a in ExpiredPass(p, list, n, others, run).attempts ==> a.rec in list
  {
    if n > 0 {
      AttemptsAreListed(p, list, n - 1, others, run);
    }
  }

  /** Over a whole pass without force, the tree of a listed worktree goes with the
      others, with a removal of its own that its row, read again, allowed, or with
      a removal of a listed worktree strictly above it, whose row alone was read. */
  lemma ListedTreesLeaveForAReason(p: Progress, list: seq<Record>, n: nat, others: Others, run: Run, r: Record)
    requires n <= |list| && !run.force && p.attempts == [] && DistinctKeys(list) && r in list
    requires r.path in p.state.disk && r.path !in ExpiredPass(p, list, n, others, run).state.disk
    ensures var attempts := ExpiredPass(p, list, n, others, run).attempts;
            AnyTaken(p, list, n, others, run, r.path) || OwnAttempt(attempts, r, run) || AttemptAbove(attempts, list, r, run)
    ensures (forall l :: l in list ==> !(l.path < r.path)) ==>
              AnyTaken(p, list, n, others, run, r.path)
              || OwnAttempt(ExpiredPass(p, list, n, others, run).attempts, r, run)
  {
    PathsLeaveForAReason(p, list, n, others, run, r.path);
    AttemptsAreListed(p, list, n, others, run);
    TriedOnlyReclaimable(p, list, n, others, run);
    var attempts := ExpiredPass(p, list, n, others, run).attempts;
    if ClearedByAttempt(attempts, r.path) {
      var a :| a in attempts && a.rec.path <= r.path;
      if a.rec.path == r.path {
        SamePathSameRow(list, a.rec, r);
      }
    }
  }

  lemma SamePathSameRow(list: seq<Record>, a: Record, b: Record)
    requires DistinctKeys(list) && a in list && b in list && a.path == b.path
    ensures a == b
  {}

  function Counts(r: Report): nat {
    r.expired + r.skipped + r.failed
  }

  /** `n` candidates later: no counter fell, and together they grew by at most `n`. */
  predicate CountedAtMost(before: Report, after: Report, n: nat) {
    && after.dead == before.dead
    && before.expired <= after.expired && before.skipped <= after.skipped && before.failed <= after.failed
    && Counts(after) <= Counts(before) + n
  }

  lemma CountedOnce(before: Report, report: Report, outcome: Outcome, n: nat)
    requires CountedAtMost(before, report, n)
    ensures CountedAtMost(before, Counted(report, outcome), n + 1)
  {}

  /** Each candidate adds to at most one counter. */
  lemma {:induction false} CountersBounded(p: Progress, list: seq<Record>, n: nat, others: Others, run: Run)
    requires n <= |list|
    ensures CountedAtMost(p.report, ExpiredPass(p, list, n, others, run).report, n)
  {
    if n > 0 {
      CountersBounded(p, list, n - 1, others, run);
      StepCounted(p, list, n - 1, others, run);
    }
  }

  lemma StepCounted(p: Progress, list: seq<Record>, n: nat, others: Others, run: Run)
    requires n < |list| && CountedAtMost(p.report, ExpiredPass(p, list, n, others, run).report, n)
    ensures CountedAtMost(p.report, ExpiredPass(p, list, n + 1, others, run).report, n + 1)
  {
    var q := ExpiredPass(p, list, n, others, run);
    var t := TurnOf(others.before(n, q.state), Between(others, n), list[n], run);
    CountedOnce(p.report, q.report, t.outcome, n);
  }

  // ------------------------------------------------------ a world at rest

  lemma KeptGrows(rows: seq<Record>, r: Record, keep: Record -> bool)
    ensures Kept(rows + [r], keep) == Kept(rows, keep) + if keep(r) then [r] else []
  {
    SnocLast(rows, r);
  }

  lemma {:induction false} KeptTwice(rows: seq<Record>, f: Record -> bool, g: Record -> bool, both: Record -> bool)
    requires forall r :: r in rows ==> both(r) == (f(r) && g(r))
    ensures Kept(Kept(rows, f), g) == Kept(rows, both)
  {
    if rows != [] {
      var init, last := rows[..|rows| - 1], rows[|rows| - 1];
      KeptTwice(init, f, g, both);
      if f(last) {
        KeptGrows(Kept(init, f), last, g);
      } else {
        EmptyRight(Kept(init, f));
        EmptyRight(Kept(init, both));
      }
    }
  }

  /** What a run does to a row in a state that only the run changes. */
  predicate Lost(s: State, r: Record) {
    !r.alive || r.path !in s.disk
  }

  predicate Doomed(s: State, r: Record, run: Run) {
    LastActive(r) < run.cutoff && (run.force || !Guarded(s, r, s.cwds))
  }

  predicate Spared(s: State, r: Record, run: Run) {
    LastActive(r) < run.cutoff && !run.force && Guarded(s, r, s.cwds)
  }

  function IsLost(s: State): Record -> bool {
    r => Lost(s, r)
  }

  function IsDoomed(s: State, run: Run): Record -> bool {
    r => Doomed(s, r, run)
  }

  function IsSpared(s: State, run: Run): Record -> bool {
    r => Spared(s, r, run)
  }

  function IsPresent(s: State): Record -> bool {
    r => Present(s, r)
  }

  function IsDoomedThere(s: State, run: Run): Record -> bool {
    (r: Record) => r.path in s.disk && Doomed(s, r, run)
  }

  predicate Present(s: State, r: Record) {
    r.alive && r.path in s.disk
  }

  function DoomedOf(s: State, rows: seq<Record>, run: Run): seq<Record> {
    Kept(rows, IsDoomed(s, run))
  }

  function SparedOf(s: State, rows: seq<Record>, run: Run): seq<Record> {
    Kept(rows, IsSpared(s, run))
  }

  /** Whatever the others would do, they leave the state as it is. */
  ghost predicate AtRest(others: Others) {
    (forall n, s :: others.before(n, s) == s) && (forall n, s :: others.between(n, s) == s)
  }

  ghost predicate UniqueIds(rows: seq<Record>) {
    forall a, b :: a in rows && b in rows && a.id == b.id ==> a == b
  }

  /** Only the rows and the disk have changed since `s0`, and the disk only by
      removals. */
  ghost predicate Since(s: State, s0: State) {
    s == s0.(rows := s.rows, disk := s.disk) && s.disk <= s0.disk && UniqueIds(s.rows)
  }

  /** Candidates from `n` on are still registered, and read as they did. */
  ghost predicate Intact(s: State, list: seq<Record>, n: nat) {
    forall k :: n <= k < |list| ==> list[k] in s.rows && (list[k].path in s.disk || list[k].path !in s.links)
  }

  /** No path inside another one is itself a symbolic link. */
  ghost predicate NestedNotLinked(rows: seq<Record>, links: map<Path, Path>) {
    forall a, b :: a in rows && b in rows && a != b && a.path <= b.path ==> b.path !in links
  }

  lemma GuardAsBefore(s: State, s0: State, r: Record, cwds: seq<Path>)
    requires Since(s, s0)
    requires r.path in s.disk || r.path !in s.links
    ensures Guarded(s, r, cwds) == Guarded(s0, r, cwds)
  {
    assert Canonical(s, r.path) == Canonical(s0, r.path);
  }

  lemma RestChecks(s: State, s0: State, rec: Record, run: Run)
    requires Since(s, s0) && s.readable && !run.dryRun
    requires run.scan == if run.force then [] else s0.cwds
    requires rec in s.rows && (rec.path in s.disk || rec.path !in s.links)
    ensures FirstPass(s, rec, run) ==
            if Doomed(s0, rec, run) then None else if Spared(s0, rec, run) then Some(Skipped) else Some(Recent)
    ensures Doomed(s0, rec, run) ==> SecondPass(s, rec, run) == None
  {
    GuardAsBefore(s, s0, rec, s0.cwds);
    if !run.force {
      assert GetById(s.rows, rec.id) == Some(rec);
    }
  }

  /** Reclaiming a candidate leaves the later ones registered. */
  lemma ReclaimKeepsOthers(s: State, s0: State, list: seq<Record>, n: nat)
    requires n < |list| && Since(s, s0) && Intact(s, list, n) && s.writable
    requires DistinctKeys(list) && NestedNotLinked(list, s0.links)
    ensures var t := Reclaim(s, list[n]);
            && Since(t.state, s0) && Intact(t.state, list, n + 1)
            && t.outcome == if list[n].path in s.disk && list[n].path in s.stuck then RemoveFailed else Expired
  {
    var t := Reclaim(s, list[n]);
    forall k | n + 1 <= k < |list|
      ensures list[k] in t.state.rows && (list[k].path in t.state.disk || list[k].path !in t.state.links)
    {
      assert list[k].id != list[n].id && list[k].path != list[n].path;
    }
  }

  /** `after` has the doomed and the spared of `rows` counted on top of `before`. */
  predicate Tallied(before: Report, after: Report, s0: State, rows: seq<Record>, run: Run) {
    && after.dead == before.dead
    && after.expired + after.failed == before.expired + before.failed + |DoomedOf(s0, rows, run)|
    && after.skipped == before.skipped + |SparedOf(s0, rows, run)|
  }

  /** The outcome of a candidate in a world at rest. */
  predicate AsJudged(outcome: Outcome, s0: State, rec: Record, run: Run) {
    if Doomed(s0, rec, run) then outcome == Expired || outcome == RemoveFailed
    else if Spared(s0, rec, run) then outcome == Skipped
    else outcome == Recent
  }

  lemma TallyGrows(before: Report, after: Report, s0: State, rows: seq<Record>, rec: Record, run: Run, outcome: Outcome)
    requires Tallied(before, after, s0, rows, run) && AsJudged(outcome, s0, rec, run)
    ensures Tallied(before, Counted(after, outcome), s0, rows + [rec], run)
  {
    KeptGrows(rows, rec, IsDoomed(s0, run));
    KeptGrows(rows, rec, IsSpared(s0, run));
  }

  lemma TurnAtRest(s: State, s0: State, move: State -> State, list: seq<Record>, n: nat, run: Run)
    requires n < |list| && move(s) == s && !run.dryRun
    requires s0.readable && s0.writable && Since(s, s0) && Intact(s, list, n)
    requires DistinctKeys(list) && NestedNotLinked(list, s0.links)
    requires run.scan == if run.force then [] else s0.cwds
    ensures var t := TurnOf(s, move, list[n], run);
            && Since(t.state, s0) && Intact(t.state, list, n + 1)
            && AsJudged(t.outcome, s0, list[n], run)
  {
    RestChecks(s, s0, list[n], run);
    ReclaimKeepsOthers(s, s0, list, n);
  }

  /** In a world at rest a run counts by what the rows said at the start. */
  lemma {:induction false} PassAtRest(p: Progress, list: seq<Record>, n: nat, others: Others, run: Run)
    requires n <= |list| && AtRest(others) && !run.dryRun
    requires p.state.readable && p.state.writable && UniqueIds(p.state.rows)
    requires Intact(p.state, list, 0) && DistinctKeys(list) && NestedNotLinked(list, p.state.links)
    requires run.scan == if run.force then [] else p.state.cwds
    ensures var q := ExpiredPass(p, list, n, others, run);
            && Since(q.state, p.state) && Intact(q.state, list, n)
            && Tallied(p.report, q.report, p.state, list[..n], run)
  {
    if n == 0 {
      NothingTallied(p.report, p.state, list[..0], run);
    } else {
      PassAtRest(p, list, n - 1, others, run);
      StepAtRest(p, ExpiredPass(p, list, n - 1, others, run), list, n - 1, others, run);
    }
  }

  /** What an obedient world at rest gives a pass to start from. */
  ghost predicate RestFacts(s: State, list: seq<Record>, others: Others, run: Run) {
    && AtRest(others) && !run.dryRun && run.scan == (if run.force then [] else s.cwds)
    && s.readable && s.writable && s.stuck == {} && UniqueIds(s.rows) && UniquePaths(s.rows)
    && Intact(s, list, 0) && DistinctKeys(list) && NestedNotLinked(list, s.links)
    && (forall r :: r in list ==> r.path in s.disk)
  }

  /** The same, folded until a lemma names the list. */
  ghost predicate Obedient(s: State, list: seq<Record>, others: Others, run: Run) {
    forall x {:trigger Is(x, list)} :: Is(x, list) ==> RestFacts(s, x, others, run)
  }

  lemma OpenObedient(s: State, list: seq<Record>, others: Others, run: Run)
    ensures Obedient(s, list, others, run) <==> RestFacts(s, list, others, run)
  {
    assert Is(list, list);
  }

  /** The part of it that says what the later turns find. */
  lemma RestGoesOn(p: Progress, list: seq<Record>, n: nat, others: Others, run: Run)
    requires n <= |list| && Obedient(p.state, list, others, run)
    ensures var q := ExpiredPass(p, list, n, others, run); Since(q.state, p.state) && Intact(q.state, list, n)
  {
    OpenObedient(p.state, list, others, run);
    PassAtRest(p, list, n, others, run);
  }

  lemma NothingTallied(report: Report, s: State, rows: seq<Record>, run: Run)
    requires rows == []
    ensures Tallied(report, report, s, rows, run)
  {}

  lemma StepAtRest(p: Progress, q: Progress, list: seq<Record>, n: nat, others: Others, run: Run)
    requires n < |list| && AtRest(others) && !run.dryRun
    requires p.state.readable && p.state.writable && Since(q.state, p.state) && Intact(q.state, list, n)
    requires DistinctKeys(list) && NestedNotLinked(list, p.state.links)
    requires run.scan == if run.force then [] else p.state.cwds
    requires Tallied(p.report, q.report, p.state, list[..n], run)
    ensures var after := NextProgress(q, list[n], n, others, run);
            && Since(after.state, p.state) && Intact(after.state, list, n + 1)
            && Tallied(p.report, after.report, p.state, list[..n + 1], run)
  {
    Grow(list, n);
    var move := Between(others, n);
    TurnAtRest(q.state, p.state, move, list, n, run);
    TallyGrows(p.report, q.report, p.state, list[..n], list[n], run, TurnOf(q.state, move, list[n], run).outcome);
  }

  function DoomedThere(s: State, rows: seq<Record>, run: Run): seq<Record> {
    Kept(rows, IsDoomedThere(s, run))
  }

  /** A dry run counts the doomed that are there and every spared one. */
  predicate DryTallied(before: Report, after: Report, s: State, rows: seq<Record>, run: Run) {
    && after.dead == before.dead && after.failed == before.failed
    && after.expired == before.expired + |DoomedThere(s, rows, run)|
    && after.skipped == before.skipped + |SparedOf(s, rows, run)|
  }

  lemma DryTallyGrows(before: Report, after: Report, s: State, move: State -> State, rows: seq<Record>, rec: Record, run: Run)
    requires run.dryRun && run.scan == if run.force then [] else s.cwds
    requires DryTallied(before, after, s, rows, run)
    ensures DryTallied(before, Counted(after, TurnOf(s, move, rec, run).outcome), s, rows + [rec], run)
  {
    KeptGrows(rows, rec, IsDoomedThere(s, run));
    KeptGrows(rows, rec, IsSpared(s, run));
  }

  lemma {:induction false} DryPassAtRest(p: Progress, list: seq<Record>, n: nat, others: Others, run: Run)
    requires n <= |list| && AtRest(others) && run.dryRun
    requires run.scan == if run.force then [] else p.state.cwds
    ensures var q := ExpiredPass(p, list, n, others, run);
            q.state == p.state && DryTallied(p.report, q.report, p.state, list[..n], run)
  {
    if n > 0 {
      DryPassAtRest(p, list, n - 1, others, run);
      var q := ExpiredPass(p, list, n - 1, others, run);
      Grow(list, n - 1);
      var move := Between(others, n - 1);
      DryTallyGrows(p.report, q.report, p.state, move, list[..n - 1], list[n - 1], run);
    }
  }

  // ------------------------------------------------------ dead rows

  lemma DistinctGrows(rows: seq<Record>, last: Record)
    requires DistinctKeys(rows)
    requires forall r :: r in rows ==> r.id != last.id && r.path != last.path
    ensures DistinctKeys(rows + [last])
  {}

  lemma {:induction false} KeptDistinct(rows: seq<Record>, keep: Record -> bool)
    requires DistinctKeys(rows)
    ensures DistinctKeys(Kept(rows, keep))
  {
    if rows != [] {
      var init, last := rows[..|rows| - 1], rows[|rows| - 1];
      KeptDistinct(init, keep);
      if keep(last) {
        DistinctGrows(Kept(init, keep), last);
      } else {
        EmptyRight(Kept(init, keep));
      }
    }
  }

  lemma DistinctIsUnique(rows: seq<Record>)
    requires DistinctKeys(rows)
    ensures UniqueIds(rows)
  {}

  /** `dead` lists rows of `rows0`, none alive, each once. */
  ghost predicate ListsDead(rows0: seq<Record>, dead: seq<Record>) {
    && DistinctKeys(rows0) && DistinctKeys(dead)
    && forall k :: 0 <= k < |dead| ==> dead[k] in rows0 && !dead[k].alive
  }

  /** What is left of `rows0` once the first `n` of `dead` are dropped. */
  ghost predicate DeadDropped(rows0: seq<Record>, dead: seq<Record>, rows: seq<Record>, n: nat) {
    && DistinctKeys(rows)
    && AliveRows(rows) == AliveRows(rows0)
    && (forall r :: r in rows ==> r in rows0)
    && (forall k :: n <= k < |dead| ==> dead[k] in rows)
    && (forall k :: 0 <= k < n && k < |dead| ==> dead[k] !in rows)
  }

  /** Dropping a dead row by its key keeps the others as they were. */
  lemma WithoutIdKeeps(rows: seq<Record>, rec: Record)
    requires DistinctKeys(rows) && rec in rows && !rec.alive
    ensures DistinctKeys(WithoutId(rows, rec.id))
    ensures AliveRows(WithoutId(rows, rec.id)) == AliveRows(rows)
  {
    KeptDistinct(rows, OtherId(rec.id));
    DistinctIsUnique(rows);
    KeptTwice(rows, OtherId(rec.id), Alive, Alive);
  }

  lemma DropDead(rows0: seq<Record>, dead: seq<Record>, rows: seq<Record>, n: nat)
    requires n < |dead| && ListsDead(rows0, dead) && DeadDropped(rows0, dead, rows, n)
    ensures GetById(rows, dead[n].id).Some?
    ensures DeadDropped(rows0, dead, WithoutId(rows, dead[n].id), n + 1)
  {
    var rec := dead[n];
    DistinctIsUnique(rows);
    assert rec in rows;
    WithoutIdKeeps(rows, rec);
  }

  /** `q` is `p` with `n` of the dead rows dropped and counted. */
  ghost predicate DroppedUpTo(p: Progress, dead: seq<Record>, q: Progress, n: nat) {
    && q.state == p.state.(rows := q.state.rows) && q.attempts == p.attempts
    && q.report == p.report.(dead := p.report.dead + n)
    && DeadDropped(p.state.rows, dead, q.state.rows, n)
  }

  lemma DropRowStep(p: Progress, dead: seq<Record>, q: Progress, n: nat)
    requires n < |dead| && ListsDead(p.state.rows, dead) && p.state.writable
    requires DroppedUpTo(p, dead, q, n)
    ensures DroppedUpTo(p, dead, DropRow(q, dead[n]), n + 1)
  {
    DropDead(p.state.rows, dead, q.state.rows, n);
  }

  lemma NoneDropped(p: Progress, dead: seq<Record>)
    requires ListsDead(p.state.rows, dead)
    ensures DroppedUpTo(p, dead, p, 0)
  {}

  /** With the key distinct and the database writable, every listed dead row
      goes and is counted, and the alive rows stay. */
  lemma {:induction false} DeadPassDropsAll(p: Progress, dead: seq<Record>, n: nat)
    requires ListsDead(p.state.rows, dead) && p.state.writable && n <= |dead|
    ensures DroppedUpTo(p, dead, DeadPass(p, dead, n), n)
  {
    if n > 0 {
      DeadPassDropsAll(p, dead, n - 1);
      var q := DeadPass(p, dead, n - 1);
      DropRowStep(p, dead, q, n - 1);
      assert DeadPass(p, dead, n) == DropRow(q, dead[n - 1]);
    } else {
      NoneDropped(p, dead);
    }
  }

  // ------------------------------------------------------ the collection

  function DeadOf(s: State): seq<Record> {
    Kept(s.rows, IsLost(s))
  }

  predicate LostAlive(s: State) {
    exists r :: r in s.rows && r.alive && r.path !in s.disk
  }

  /** Dead-record reclamation: count in a dry run, sweep and unregister in a real
      one; `None` for a database error. */
  function ReclaimDead(s: State, dryRun: bool): Option<Progress> {
    if !s.readable then None
    else if dryRun then Some(Progress(s, Report(|DeadOf(s)|, 0, 0, 0), []))
    else if !s.writable && LostAlive(s) then None
    else
      var swept := s.(rows := Swept(s.rows, s.disk));
      var dead := DeadRows(swept.rows);
      Some(DeadPass(Progress(swept, Report(0, 0, 0, 0), []), dead, |dead|))
  }

  function RunOf(opts: Options, maxAge: int, now: int, s: State): Run {
    Run(opts.force, opts.dryRun, Cutoff(now, maxAge), if opts.force then [] else s.cwds)
  }

  function Collect(s: State, opts: Options, now: int, others: Others): Option<Progress> {
    match ReclaimDead(s, opts.dryRun)
    case None => None
    case Some(p) =>
      match opts.maxAge
      case None => Some(p)
      case Some(age) =>
        var list := AliveRows(p.state.rows);
        Some(ExpiredPass(p, list, |list|, others, RunOf(opts, age, now, p.state)))
  }

  // ------------------------------------------------------ what a collection does

  lemma {:induction false} KeptSame(rows: seq<Record>, f: Record -> bool, g: Record -> bool)
    requires forall r :: r in rows ==> f(r) == g(r)
    ensures Kept(rows, f) == Kept(rows, g)
  {
    if rows != [] {
      KeptSame(rows[..|rows| - 1], f, g);
    }
  }

  lemma {:induction false} KeptFewer(rows: seq<Record>, f: Record -> bool, g: Record -> bool)
    requires forall r :: r in rows && f(r) ==> g(r)
    ensures |Kept(rows, f)| <= |Kept(rows, g)|
  {
    if rows != [] {
      KeptFewer(rows[..|rows| - 1], f, g);
    }
  }

  /** The sweep leaves the present rows alive as they were. */
  lemma {:induction false} SweptAlive(s: State, rows: seq<Record>)
    ensures AliveRows(Swept(rows, s.disk)) == Kept(rows, IsPresent(s))
  {
    if rows != [] {
      var init, last := rows[..|rows| - 1], rows[|rows| - 1];
      SweptAlive(s, init);
      KeptGrows(Swept(init, s.disk), SweptRow(last, s.disk), Alive);
    }
  }

  /** The sweep makes every lost row dead, and no other. */
  lemma {:induction false} SweptDead(s: State, rows: seq<Record>)
    ensures |DeadRows(Swept(rows, s.disk))| == |Kept(rows, IsLost(s))|
  {
    if rows != [] {
      var init, last := rows[..|rows| - 1], rows[|rows| - 1];
      SweptDead(s, init);
      KeptGrows(Swept(init, s.disk), SweptRow(last, s.disk), Dead);
    }
  }

  lemma SweptKeys(rows: seq<Record>, disk: set<Path>)
    requires DistinctKeys(rows)
    ensures DistinctKeys(Swept(rows, disk))
    ensures ListsDead(Swept(rows, disk), DeadRows(Swept(rows, disk)))
  {
    KeptDistinct(Swept(rows, disk), Dead);
  }

  /** What the dead pass of a real run leaves for the expired pass. */
  lemma DeadReclaimed(s: State)
    requires DistinctKeys(s.rows) && s.readable && s.writable
    ensures var p := ReclaimDead(s, false);
            && p.Some?
            && p.value == Progress(s.(rows := p.value.state.rows), Report(|DeadOf(s)|, 0, 0, 0), [])
            && DistinctKeys(p.value.state.rows)
            && AliveRows(p.value.state.rows) == Kept(s.rows, IsPresent(s))
            && (forall r :: r in p.value.state.rows ==> r.alive)
  {
    var swept := s.(rows := Swept(s.rows, s.disk));
    var dead := DeadRows(swept.rows);
    SweptKeys(s.rows, s.disk);
    SweptAlive(s, s.rows);
    SweptDead(s, s.rows);
    DeadPassDropsAll(Progress(swept, Report(0, 0, 0, 0), []), dead, |dead|);
    var rows := ReclaimDead(s, false).value.state.rows;
    forall r | r in rows
      ensures r.alive
    {
      assert r in swept.rows && (!r.alive ==> r in dead);
    }
  }

  lemma PresentIntact(s: State, s1: State, list: seq<Record>)
    requires s1 == s.(rows := s1.rows) && DistinctKeys(s.rows) && DistinctKeys(s1.rows) && NestedNotLinked(s.rows, s.links)
    requires list == AliveRows(s1.rows) == Kept(s.rows, IsPresent(s))
    ensures UniqueIds(s1.rows) && Intact(s1, list, 0) && DistinctKeys(list) && NestedNotLinked(list, s1.links)
  {
    DistinctIsUnique(s1.rows);
    KeptDistinct(s.rows, IsPresent(s));
    assert forall k :: 0 <= k < |list| ==> list[k] in list;
  }

  predicate DoomedPresent(s: State, r: Record, run: Run) {
    Present(s, r) && Doomed(s, r, run)
  }

  function IsDoomedPresent(s: State, run: Run): Record -> bool {
    r => DoomedPresent(s, r, run)
  }

  function IsSparedAlive(s: State, run: Run): Record -> bool {
    (r: Record) => r.alive && Spared(s, r, run)
  }

  function IsSparedPresent(s: State, run: Run): Record -> bool {
    (r: Record) => Present(s, r) && Spared(s, r, run)
  }

  /** The doomed among the present rows, counted in one step or two. */
  lemma SameDoomed(s: State, s1: State, run: Run)
    requires s1 == s.(rows := s1.rows)
    ensures DoomedOf(s1, Kept(s.rows, IsPresent(s)), run) == DoomedThere(s, AliveRows(s.rows), run)
  {
    KeptTwice(s.rows, Alive, IsDoomedThere(s, run), IsDoomedPresent(s, run));
    KeptTwice(s.rows, IsPresent(s), IsDoomed(s1, run), IsDoomedPresent(s, run));
  }

  lemma FewerSpared(s: State, s1: State, run: Run)
    requires s1 == s.(rows := s1.rows)
    ensures |SparedOf(s1, Kept(s.rows, IsPresent(s)), run)| <= |SparedOf(s, AliveRows(s.rows), run)|
  {
    KeptTwice(s.rows, Alive, IsSpared(s, run), IsSparedAlive(s, run));
    KeptTwice(s.rows, IsPresent(s), IsSpared(s1, run), IsSparedPresent(s, run));
    KeptFewer(s.rows, IsSparedPresent(s, run), IsSparedAlive(s, run));
  }

  lemma SameJudgement(s: State, rows: seq<Record>, a: Run, b: Run)
    requires a.force == b.force && a.cutoff == b.cutoff
    ensures DoomedThere(s, rows, a) == DoomedThere(s, rows, b) && SparedOf(s, rows, a) == SparedOf(s, rows, b)
  {
    KeptSame(rows, IsDoomedThere(s, a), IsDoomedThere(s, b));
    KeptSame(rows, IsSpared(s, a), IsSpared(s, b));
  }

  lemma ActualPass(s: State, p: Progress, others: Others, run: Run)
    requires DistinctKeys(s.rows) && NestedNotLinked(s.rows, s.links)
    requires s.readable && s.writable && AtRest(others) && !run.dryRun
    requires p.state == s.(rows := p.state.rows) && DistinctKeys(p.state.rows)
    requires AliveRows(p.state.rows) == Kept(s.rows, IsPresent(s))
    requires run.scan == if run.force then [] else s.cwds
    ensures var list, alive := AliveRows(p.state.rows), AliveRows(s.rows);
            var q := ExpiredPass(p, list, |list|, others, run);
            && q.report.dead == p.report.dead
            && q.report.expired + q.report.failed == p.report.expired + p.report.failed + |DoomedThere(s, alive, run)|
            && q.report.skipped <= p.report.skipped + |SparedOf(s, alive, run)|
  {
    var list := AliveRows(p.state.rows);
    PresentIntact(s, p.state, list);
    PassAtRest(p, list, |list|, others, run);
    assert list[..|list|] == list;
    SameDoomed(s, p.state, run);
    FewerSpared(s, p.state, run);
  }

  /** A real run in a world at rest, counted by the rows it started from. */
  lemma ActualRun(s: State, opts: Options, now: int, others: Others, age: int)
    requires DistinctKeys(s.rows) && NestedNotLinked(s.rows, s.links)
    requires s.readable && s.writable && AtRest(others)
    requires opts.maxAge == Some(age) && !opts.dryRun
    ensures var p, run, alive := Collect(s, opts, now, others), RunOf(opts, age, now, s), AliveRows(s.rows);
            && p.Some?
            && p.value.report.dead == |DeadOf(s)|
            && p.value.report.expired + p.value.report.failed == |DoomedThere(s, alive, run)|
            && p.value.report.skipped <= |SparedOf(s, alive, run)|
  {
    DeadReclaimed(s);
    ActualPass(s, ReclaimDead(s, false).value, others, RunOf(opts, age, now, s));
  }

  /** A dry run in a world at rest, counted by the same rows. */
  lemma DryRun(s: State, opts: Options, now: int, others: Others, age: int)
    requires s.readable && AtRest(others)
    requires opts.maxAge == Some(age) && opts.dryRun
    ensures var p, run, alive := Collect(s, opts, now, others), RunOf(opts, age, now, s), AliveRows(s.rows);
            && p.Some?
            && p.value.state == s && p.value.attempts == []
            && p.value.report == Report(|DeadOf(s)|, |DoomedThere(s, alive, run)|, |SparedOf(s, alive, run)|, 0)
  {
    var dry := ReclaimDead(s, true).value;
    var list, run := AliveRows(s.rows), RunOf(opts, age, now, s);
    DryPassAtRest(dry, list, |list|, others, run);
    DryRunTriesNothing(dry, list, |list|, others, run);
    assert list[..|list|] == list;
  }

  /** `dry` leaves everything as it is and reports the dead rows `actual` drops
      and the worktrees it expires or fails to remove; only the skipped may be
      more, by rows whose path is gone. */
  predicate Predicts(s: State, dry: Progress, actual: Progress) {
    && dry.state == s && dry.attempts == []
    && dry.report.dead == actual.report.dead
    && dry.report.expired == actual.report.expired + actual.report.failed
    && dry.report.skipped >= actual.report.skipped
  }

  lemma DryRunPredicts(s: State, opts: Options, now: int, others: Others)
    requires DistinctKeys(s.rows) && NestedNotLinked(s.rows, s.links)
    requires s.readable && s.writable && AtRest(others)
    ensures var dry := Collect(s, opts.(dryRun := true), now, others);
            var actual := Collect(s, opts.(dryRun := false), now, others);
            dry.Some? && actual.Some? && Predicts(s, dry.value, actual.value)
  {
    match opts.maxAge {
      case None =>
        DeadReclaimed(s);
      case Some(age) =>
        ActualRun(s, opts.(dryRun := false), now, others, age);
        DryRun(s, opts.(dryRun := true), now, others, age);
        SameJudgement(s, AliveRows(s.rows), RunOf(opts.(dryRun := true), age, now, s), RunOf(opts.(dryRun := false), age, now, s));
    }
  }

  // ------------------------------------------------------ exactly the doomed

  /** The state `s0` less the trees of `gone`, and with other rows. */
  ghost predicate TreesGone(s: State, s0: State, gone: seq<Record>) {
    s == s0.(rows := s.rows, disk := s.disk) && forall q :: GoneIff(s, s0, gone, q)
  }

  predicate GoneIff(s: State, s0: State, gone: seq<Record>, q: Path) {
    q in s.disk <==> q in s0.disk && Clear(q, gone)
  }

  /** The state `s0` less the rows and trees of `gone`. */
  ghost predicate ExactlyGone(s: State, s0: State, gone: seq<Record>) {
    TreesGone(s, s0, gone) && forall r :: RowGoneIff(s, s0, gone, r)
  }

  predicate RowGoneIff(s: State, s0: State, gone: seq<Record>, r: Record) {
    r in s.rows <==> r in s0.rows && r !in gone
  }

  predicate Clear(q: Path, gone: seq<Record>) {
    forall r :: r in gone ==> !(r.path <= q)
  }

  ghost predicate UniquePaths(rows: seq<Record>) {
    forall a, b :: a in rows && b in rows && a.path == b.path ==> a == b
  }

  lemma ClearGrows(q: Path, gone: seq<Record>, rec: Record)
    ensures Clear(q, gone + [rec]) <==> Clear(q, gone) && !(rec.path <= q)
  {
    assert rec in gone + [rec];
  }

  /** Reclaiming a candidate takes its tree, which may have gone with another. */
  lemma ReclaimTree(s: State, s0: State, gone: seq<Record>, rec: Record)
    requires TreesGone(s, s0, gone) && s.writable && s.stuck == {}
    requires rec in s.rows && rec.path in s0.disk
    ensures TreesGone(Reclaim(s, rec).state, s0, gone + [rec]) && Reclaim(s, rec).outcome == Expired
  {
    assert GetById(s.rows, rec.id).Some?;
    assert GoneIff(s, s0, gone, rec.path);
    forall q
      ensures GoneIff(Reclaim(s, rec).state, s0, gone + [rec], q)
    {
      assert GoneIff(s, s0, gone, q);
      ClearGrows(q, gone, rec);
      if rec.path <= q {
        ClearBelow(q, gone, rec.path);
      }
    }
  }

  lemma ClearBelow(q: Path, gone: seq<Record>, path: Path)
    requires path <= q
    ensures Clear(q, gone) ==> Clear(path, gone)
  {
    forall r | r in gone && r.path <= path
      ensures r.path <= q
    {
      PrefixOfPrefix(r.path, path, q);
    }
  }

  /** Over the default database a reclaimed candidate's row goes, and no other. */
  lemma ReclaimExact(s: State, s0: State, gone: seq<Record>, rec: Record)
    requires ExactlyGone(s, s0, gone) && UniqueIds(s0.rows) && UniquePaths(s0.rows)
    requires s.writable && s.isDefault && s.stuck == {}
    requires rec in s.rows && rec.path in s0.disk
    ensures ExactlyGone(Reclaim(s, rec).state, s0, gone + [rec]) && Reclaim(s, rec).outcome == Expired
  {
    ReclaimTree(s, s0, gone, rec);
    assert RowGoneIff(s, s0, gone, rec);
    forall r
      ensures RowGoneIff(Reclaim(s, rec).state, s0, gone + [rec], r)
    {
      assert RowGoneIff(s, s0, gone, r);
    }
  }

  lemma TreesTurn(s: State, s0: State, move: State -> State, list: seq<Record>, n: nat, run: Run)
    requires n < |list| && move(s) == s && !run.dryRun
    requires s0.readable && s0.writable && s0.stuck == {} && Since(s, s0) && Intact(s, list, n)
    requires list[n].path in s0.disk
    requires run.scan == if run.force then [] else s0.cwds
    requires TreesGone(s, s0, DoomedOf(s0, list[..n], run))
    ensures var t := TurnOf(s, move, list[n], run); TreesGone(t.state, s0, DoomedOf(s0, list[..n] + [list[n]], run))
  {
    var rec, gone := list[n], DoomedOf(s0, list[..n], run);
    RestChecks(s, s0, rec, run);
    KeptGrows(list[..n], rec, IsDoomed(s0, run));
    if Doomed(s0, rec, run) {
      ReclaimTree(s, s0, gone, rec);
    } else {
      EmptyRight(gone);
    }
  }

  lemma TreesStep(p: Progress, list: seq<Record>, n: nat, others: Others, run: Run)
    requires n < |list| && Obedient(p.state, list, others, run)
    requires var q := ExpiredPass(p, list, n, others, run);
             Since(q.state, p.state) && Intact(q.state, list, n) && TreesGone(q.state, p.state, DoomedOf(p.state, list[..n], run))
    ensures TreesGone(ExpiredPass(p, list, n + 1, others, run).state, p.state, DoomedOf(p.state, list[..n + 1], run))
  {
    OpenObedient(p.state, list, others, run);
    Grow(list, n);
    TreesTurn(ExpiredPass(p, list, n, others, run).state, p.state, Between(others, n), list, n, run);
  }

  /** Whatever the database, the trees that go are those of the doomed. */
  lemma {:induction false} TreesPass(p: Progress, list: seq<Record>, n: nat, others: Others, run: Run)
    requires n <= |list| && Obedient(p.state, list, others, run)
    ensures TreesGone(ExpiredPass(p, list, n, others, run).state, p.state, DoomedOf(p.state, list[..n], run))
  {
    if n == 0 {
      NoTreesGone(p.state, list[..0], run);
    } else {
      TreesPass(p, list, n - 1, others, run);
      RestGoesOn(p, list, n - 1, others, run);
      TreesStep(p, list, n - 1, others, run);
    }
  }

  lemma NoTreesGone(s: State, rows: seq<Record>, run: Run)
    requires rows == []
    ensures TreesGone(s, s, DoomedOf(s, rows, run))
  {}

  lemma ExactStep(p: Progress, list: seq<Record>, n: nat, others: Others, run: Run)
    requires n < |list| && Obedient(p.state, list, others, run) && p.state.isDefault
    requires var q := ExpiredPass(p, list, n, others, run);
             Since(q.state, p.state) && Intact(q.state, list, n) && ExactlyGone(q.state, p.state, DoomedOf(p.state, list[..n], run))
    ensures var q, after := ExpiredPass(p, list, n, others, run), ExpiredPass(p, list, n + 1, others, run);
            ExactlyGone(after.state, p.state, DoomedOf(p.state, list[..n + 1], run)) && after.report.failed == q.report.failed
  {
    var q := ExpiredPass(p, list, n, others, run);
    OpenObedient(p.state, list, others, run);
    Grow(list, n);
    ExactTurn(q.state, p.state, Between(others, n), list, n, run);
    AfterGoodTurn(q, TurnOf(others.before(n, q.state), Between(others, n), list[n], run), list[n]);
  }

  lemma AfterGoodTurn(q: Progress, t: Turn, rec: Record)
    requires t.outcome != RemoveFailed
    ensures AfterTurn(q, t, rec).state == t.state && AfterTurn(q, t, rec).report.failed == q.report.failed
  {}

  lemma {:induction false} ExactPass(p: Progress, list: seq<Record>, n: nat, others: Others, run: Run)
    requires n <= |list| && Obedient(p.state, list, others, run) && p.state.isDefault
    ensures var q := ExpiredPass(p, list, n, others, run);
            ExactlyGone(q.state, p.state, DoomedOf(p.state, list[..n], run)) && q.report.failed == p.report.failed
  {
    if n == 0 {
      NothingGone(p.state, list[..0], run);
    } else {
      ExactPass(p, list, n - 1, others, run);
      RestGoesOn(p, list, n - 1, others, run);
      ExactStep(p, list, n - 1, others, run);
    }
  }

  lemma NothingGone(s: State, rows: seq<Record>, run: Run)
    requires rows == []
    ensures ExactlyGone(s, s, DoomedOf(s, rows, run))
  {}

  lemma ExactTurn(s: State, s0: State, move: State -> State, list: seq<Record>, n: nat, run: Run)
    requires n < |list| && move(s) == s && !run.dryRun
    requires s0.readable && s0.writable && s0.isDefault && s0.stuck == {}
    requires UniqueIds(s0.rows) && UniquePaths(s0.rows) && Since(s, s0) && Intact(s, list, n)
    requires list[n].path in s0.disk
    requires run.scan == if run.force then [] else s0.cwds
    requires ExactlyGone(s, s0, DoomedOf(s0, list[..n], run))
    ensures var t := TurnOf(s, move, list[n], run);
            ExactlyGone(t.state, s0, DoomedOf(s0, list[..n] + [list[n]], run)) && t.outcome != RemoveFailed
  {
    var rec, gone := list[n], DoomedOf(s0, list[..n], run);
    RestChecks(s, s0, rec, run);
    KeptGrows(list[..n], rec, IsDoomed(s0, run));
    if Doomed(s0, rec, run) {
      ReclaimExact(s, s0, gone, rec);
    } else {
      EmptyRight(gone);
    }
  }

  /** `after` has the rows of `s` that are present and not doomed, and the disk
      of `s` less the trees of the doomed. */
  ghost predicate OnlyDoomedGone(after: State, s: State, run: Run) {
    && OnlyDoomedTreesGone(after, s, run)
    && forall r :: r in after.rows <==> r in s.rows && Present(s, r) && !Doomed(s, r, run)
  }

  /** The disk of `s` less the trees of the doomed. */
  ghost predicate OnlyDoomedTreesGone(after: State, s: State, run: Run) {
    forall q :: q in after.disk <==>
      q in s.disk && forall r :: r in s.rows && DoomedPresent(s, r, run) ==> !(r.path <= q)
  }

  lemma AliveMembers(s: State, s1: State)
    requires AliveRows(s1.rows) == Kept(s.rows, IsPresent(s)) && forall r :: r in s1.rows ==> r.alive
    ensures forall r :: r in s1.rows <==> r in s.rows && Present(s, r)
  {
    assert forall r :: r in s1.rows <==> r in AliveRows(s1.rows);
  }

  lemma DoomedMembers(s: State, s1: State, run: Run)
    requires s1 == s.(rows := s1.rows)
    ensures forall r :: r in DoomedOf(s1, Kept(s.rows, IsPresent(s)), run) <==> r in s.rows && DoomedPresent(s, r, run)
  {
    KeptTwice(s.rows, IsPresent(s), IsDoomed(s1, run), IsDoomedPresent(s, run));
  }

  lemma TreesAreDoomed(after: State, s: State, s1: State, gone: seq<Record>, run: Run)
    requires s1 == s.(rows := s1.rows)
    requires forall r :: r in gone <==> r in s.rows && DoomedPresent(s, r, run)
    requires TreesGone(after, s1, gone)
    ensures OnlyDoomedTreesGone(after, s, run)
  {
    forall q
      ensures Clear(q, gone) <==> forall r :: r in s.rows && DoomedPresent(s, r, run) ==> !(r.path <= q)
      ensures q in after.disk <==> q in s.disk && Clear(q, gone)
    {
      assert GoneIff(after, s1, gone, q);
    }
  }

  lemma GoneAreDoomed(after: State, s: State, s1: State, gone: seq<Record>, run: Run)
    requires s1 == s.(rows := s1.rows)
    requires forall r :: r in s1.rows <==> r in s.rows && Present(s, r)
    requires forall r :: r in gone <==> r in s.rows && DoomedPresent(s, r, run)
    requires ExactlyGone(after, s1, gone)
    ensures OnlyDoomedGone(after, s, run)
  {
    TreesAreDoomed(after, s, s1, gone, run);
    forall r
      ensures r in after.rows <==> r in s.rows && Present(s, r) && !Doomed(s, r, run)
    {
      assert RowGoneIff(after, s1, gone, r);
    }
  }

  lemma TreesRun(s: State, p: Progress, others: Others, run: Run)
    requires DistinctKeys(s.rows) && NestedNotLinked(s.rows, s.links)
    requires s.readable && s.writable && s.stuck == {} && AtRest(others) && !run.dryRun
    requires p.state == s.(rows := p.state.rows) && DistinctKeys(p.state.rows)
    requires AliveRows(p.state.rows) == Kept(s.rows, IsPresent(s))
    requires run.scan == if run.force then [] else s.cwds
    ensures var list := AliveRows(p.state.rows);
            OnlyDoomedTreesGone(ExpiredPass(p, list, |list|, others, run).state, s, run)
  {
    var list := AliveRows(p.state.rows);
    PresentIntact(s, p.state, list);
    DistinctPaths(p.state.rows);
    OpenObedient(p.state, list, others, run);
    TreesPass(p, list, |list|, others, run);
    assert list[..|list|] == list;
    DoomedMembers(s, p.state, run);
    TreesAreDoomed(ExpiredPass(p, list, |list|, others, run).state, s, p.state, DoomedOf(p.state, list, run), run);
  }

  lemma ExactRun(s: State, p: Progress, others: Others, run: Run)
    requires DistinctKeys(s.rows) && NestedNotLinked(s.rows, s.links)
    requires s.readable && s.writable && s.isDefault && s.stuck == {} && AtRest(others) && !run.dryRun
    requires p.state == s.(rows := p.state.rows) && DistinctKeys(p.state.rows)
    requires AliveRows(p.state.rows) == Kept(s.rows, IsPresent(s)) && forall r :: r in p.state.rows ==> r.alive
    requires run.scan == if run.force then [] else s.cwds
    ensures var list := AliveRows(p.state.rows);
            var q := ExpiredPass(p, list, |list|, others, run);
            OnlyDoomedGone(q.state, s, run) && q.report.failed == p.report.failed
  {
    var list := AliveRows(p.state.rows);
    PresentIntact(s, p.state, list);
    DistinctPaths(p.state.rows);
    OpenObedient(p.state, list, others, run);
    ExactPass(p, list, |list|, others, run);
    assert list[..|list|] == list;
    AliveMembers(s, p.state);
    DoomedMembers(s, p.state, run);
    GoneAreDoomed(ExpiredPass(p, list, |list|, others, run).state, s, p.state, DoomedOf(p.state, list, run), run);
  }

  // ------------------------------------------------------ another database

  ghost predicate NoneDoomed(s: State, run: Run) {
    forall r :: r in s.rows ==> !DoomedPresent(s, r, run)
  }

  /** Over another database the row of the first doomed worktree stays. */
  ghost predicate FirstStays(s: State, s0: State, gone: seq<Record>) {
    if gone == [] then s == s0 else gone[0] in s.rows
  }

  lemma ElsewhereReclaim(s: State, s0: State, list: seq<Record>, n: nat, gone: seq<Record>)
    requires n < |list| && DistinctKeys(list) && Intact(s, list, n)
    requires !s.isDefault && s.writable && s.stuck == {} && list[n].path in s0.disk
    requires FirstStays(s, s0, gone) && forall r :: r in gone ==> r in list[..n]
    ensures var t := Reclaim(s, list[n]); FirstStays(t.state, s0, gone + [list[n]]) && t.outcome != RemoveFailed
  {
    if gone != [] {
      assert gone[0] in gone;
      assert gone[0].id != list[n].id;
    }
  }

  lemma ElsewhereTurn(s: State, s0: State, move: State -> State, list: seq<Record>, n: nat, run: Run)
    requires n < |list| && move(s) == s && !run.dryRun
    requires s0.readable && s0.writable && !s0.isDefault && s0.stuck == {}
    requires DistinctKeys(list) && Since(s, s0) && Intact(s, list, n) && list[n].path in s0.disk
    requires run.scan == if run.force then [] else s0.cwds
    requires FirstStays(s, s0, DoomedOf(s0, list[..n], run))
    ensures var t := TurnOf(s, move, list[n], run);
            FirstStays(t.state, s0, DoomedOf(s0, list[..n] + [list[n]], run)) && t.outcome != RemoveFailed
  {
    var rec, gone := list[n], DoomedOf(s0, list[..n], run);
    RestChecks(s, s0, rec, run);
    KeptGrows(list[..n], rec, IsDoomed(s0, run));
    if Doomed(s0, rec, run) {
      ElsewhereReclaim(s, s0, list, n, gone);
    } else {
      EmptyRight(gone);
    }
  }

  lemma ElsewhereStep(p: Progress, list: seq<Record>, n: nat, others: Others, run: Run)
    requires n < |list| && Obedient(p.state, list, others, run) && !p.state.isDefault
    requires var q := ExpiredPass(p, list, n, others, run);
             Since(q.state, p.state) && Intact(q.state, list, n) && FirstStays(q.state, p.state, DoomedOf(p.state, list[..n], run))
    ensures var q, after := ExpiredPass(p, list, n, others, run), ExpiredPass(p, list, n + 1, others, run);
            FirstStays(after.state, p.state, DoomedOf(p.state, list[..n + 1], run)) && after.report.failed == q.report.failed
  {
    var q := ExpiredPass(p, list, n, others, run);
    OpenObedient(p.state, list, others, run);
    Grow(list, n);
    ElsewhereTurn(q.state, p.state, Between(others, n), list, n, run);
    AfterGoodTurn(q, TurnOf(others.before(n, q.state), Between(others, n), list[n], run), list[n]);
  }

  lemma {:induction false} ElsewherePass(p: Progress, list: seq<Record>, n: nat, others: Others, run: Run)
    requires n <= |list| && Obedient(p.state, list, others, run) && !p.state.isDefault
    ensures var q := ExpiredPass(p, list, n, others, run);
            FirstStays(q.state, p.state, DoomedOf(p.state, list[..n], run)) && q.report.failed == p.report.failed
  {
    if n > 0 {
      ElsewherePass(p, list, n - 1, others, run);
      RestGoesOn(p, list, n - 1, others, run);
      ElsewhereStep(p, list, n - 1, others, run);
    }
  }

  lemma StaysOrNone(after: State, s: State, s1: State, gone: seq<Record>, run: Run)
    requires s1 == s.(rows := s1.rows)
    requires forall r :: r in s1.rows <==> r in s.rows && Present(s, r)
    requires forall r :: r in gone <==> r in s.rows && DoomedPresent(s, r, run)
    requires FirstStays(after, s1, gone)
    ensures OnlyDoomedGone(after, s, run) <==> NoneDoomed(s, run)
  {
    if gone == [] {
      GoneAreDoomed(after, s, s1, gone, run);
    } else {
      assert gone[0] in gone;
    }
  }

  lemma ElsewhereRun(s: State, p: Progress, others: Others, run: Run)
    requires DistinctKeys(s.rows) && NestedNotLinked(s.rows, s.links)
    requires s.readable && s.writable && !s.isDefault && s.stuck == {} && AtRest(others) && !run.dryRun
    requires p.state == s.(rows := p.state.rows) && DistinctKeys(p.state.rows)
    requires AliveRows(p.state.rows) == Kept(s.rows, IsPresent(s)) && forall r :: r in p.state.rows ==> r.alive
    requires run.scan == if run.force then [] else s.cwds
    ensures var list := AliveRows(p.state.rows);
            var q := ExpiredPass(p, list, |list|, others, run);
            (OnlyDoomedGone(q.state, s, run) <==> NoneDoomed(s, run)) && q.report.failed == p.report.failed
  {
    var list := AliveRows(p.state.rows);
    PresentIntact(s, p.state, list);
    DistinctPaths(p.state.rows);
    OpenObedient(p.state, list, others, run);
    ElsewherePass(p, list, |list|, others, run);
    assert list[..|list|] == list;
    AliveMembers(s, p.state);
    DoomedMembers(s, p.state, run);
    StaysOrNone(ExpiredPass(p, list, |list|, others, run).state, s, p.state, DoomedOf(p.state, list, run), run);
  }

  /** In a world at rest where the disk obeys, a collection takes exactly the trees
      of the doomed; and exactly the lost and the doomed rows if and only if the
      database it was given is the default one or no row is doomed. */
  lemma CollectsExactly(s: State, opts: Options, now: int, others: Others, age: int)
    requires DistinctKeys(s.rows) && NestedNotLinked(s.rows, s.links)
    requires s.readable && s.writable && s.stuck == {} && AtRest(others)
    requires opts.maxAge == Some(age) && !opts.dryRun
    ensures var p, run := Collect(s, opts, now, others), RunOf(opts, age, now, s);
            && p.Some? && p.value.report.failed == 0
            && OnlyDoomedTreesGone(p.value.state, s, run)
            && (OnlyDoomedGone(p.value.state, s, run) <==> s.isDefault || NoneDoomed(s, run))
  {
    DeadReclaimed(s);
    TreesRun(s, ReclaimDead(s, false).value, others, RunOf(opts, age, now, s));
    if s.isDefault {
      ExactRun(s, ReclaimDead(s, false).value, others, RunOf(opts, age, now, s));
    } else {
      ElsewhereRun(s, ReclaimDead(s, false).value, others, RunOf(opts, age, now, s));
    }
  }

  /** One expired worktree in a database that is not the default one: its tree is
      removed and counted, and its row stays. */
  lemma RowStaysElsewhere()
    ensures var rec := Record("w", ["a"], None, 0, None, true);
            var s := State([rec], true, true, false, {["a"]}, {}, {}, map[], {}, []);
            var t := TurnOf(s, x => x, rec, Run(false, false, 1, []));
            t.outcome == Expired && rec.path !in t.state.disk && rec in t.state.rows
  {
    var rec := Record("w", ["a"], None, 0, None, true);
    var s := State([rec], true, true, false, {["a"]}, {}, {}, map[], {}, []);
    assert GetById(s.rows, "w") == Some(rec);
    assert ["a"] <= ["a"];
  }

  /** No worktree that is to stay lies at or below one that is to go. */
  ghost predicate NoneBelowDoomed(s: State, run: Run) {
    forall r, d :: r in s.rows && d in s.rows && Present(s, r) && !Doomed(s, r, run) && DoomedPresent(s, d, run) ==>
      !(d.path <= r.path)
  }

  /** In a world at rest where the disk obeys, every worktree that was recently used
      or guarded keeps its tree exactly when none lies below a doomed one: a tree
      goes with the tree above it, with no check of its own. */
  lemma SparedTreesStayIff(s: State, opts: Options, now: int, others: Others, age: int)
    requires DistinctKeys(s.rows) && NestedNotLinked(s.rows, s.links)
    requires s.readable && s.writable && s.stuck == {} && AtRest(others)
    requires opts.maxAge == Some(age) && !opts.dryRun
    ensures var p, run := Collect(s, opts, now, others), RunOf(opts, age, now, s);
            && p.Some?
            && ((forall r :: r in s.rows && Present(s, r) && !Doomed(s, r, run) ==> r.path in p.value.state.disk)
                <==> NoneBelowDoomed(s, run))
  {
    CollectsExactly(s, opts, now, others, age);
  }

  function Idle(): Others {
    Others((n, s) => s, (n, s) => s)
  }

  function InnerRow(): Record {
    Record("i", ["a", "b"], Some(7), 0, None, true)
  }

  function OuterRow(): Record {
    Record("o", ["a"], None, 0, None, true)
  }

  function NestedState(): State {
    State([InnerRow(), OuterRow()], true, true, true, {["a"], ["a", "b"]}, {}, {}, map[], {7}, [])
  }

  lemma NestedRowsRead()
    ensures GetById(NestedState().rows, "o") == Some(OuterRow())
  {
    assert NestedState().rows[1..][0] == OuterRow();
  }

  lemma InnerIsSkipped()
    ensures TurnOf(NestedState(), s => s, InnerRow(), Run(false, false, 1, [])) == Turn(NestedState(), Skipped, None)
  {}

  lemma OuterIsRemoved()
    ensures var t := TurnOf(NestedState(), s => s, OuterRow(), Run(false, false, 1, []));
            && t.outcome == Expired && InnerRow() in t.state.rows && Guarded(t.state, InnerRow(), [])
            && InnerRow().path !in t.state.disk
  {
    NestedRowsRead();
    assert ["a", "b"][..1] == ["a"];
    assert InnerRow() in NestedState().rows;
  }

  lemma TwoTurns(s: State, a: Record, b: Record, run: Run)
    requires TurnOf(s, x => x, a, run) == Turn(s, Skipped, None)
    ensures var t := TurnOf(s, x => x, b, run);
            var q := ExpiredPass(Progress(s, Report(0, 0, 0, 0), []), [a, b], 2, Idle(), run);
            q.state == t.state && q.report == Counted(Report(0, 0, 1, 0), t.outcome)
  {
    var p := Progress(s, Report(0, 0, 0, 0), []);
    IdleTurn(s, a, 0, run);
    IdleTurn(s, b, 1, run);
    assert ExpiredPass(p, [a, b], 1, Idle(), run) == Progress(s, Report(0, 0, 1, 0), []);
  }

  lemma IdleTurn(s: State, rec: Record, n: nat, run: Run)
    ensures Idle().before(n, s) == s && TurnOf(s, Between(Idle(), n), rec, run) == TurnOf(s, x => x, rec, run)
  {}

  /** A worktree whose creator lives, inside one that has expired: it is skipped at
      its own turn, and loses its tree, not its row, at the turn of the other. */
  lemma NestedTreeGoes()
    ensures var p, run := Progress(NestedState(), Report(0, 0, 0, 0), []), Run(false, false, 1, []);
            var q := ExpiredPass(p, [InnerRow(), OuterRow()], 2, Idle(), run);
            && q.report == Report(0, 1, 1, 0)
            && InnerRow() in q.state.rows && Guarded(q.state, InnerRow(), [])
            && InnerRow().path in NestedState().disk && InnerRow().path !in q.state.disk
  {
    InnerIsSkipped();
    OuterIsRemoved();
    TwoTurns(NestedState(), InnerRow(), OuterRow(), Run(false, false, 1, []));
  }

  // ------------------------------------------------------ in terms of the clock

  /** The oldest time that counts as recent: `age` before `now`, not below the least
      64-bit value; `now` itself for a negative age. */
  function Horizon(now: int, age: int): int {
    var start := if age < 0 then now else now - age;
    if start < -0x8000_0000_0000_0000 then -0x8000_0000_0000_0000 else start
  }

  /** Neither made nor used at or after the horizon. */
  predicate UnusedSince(r: Record, horizon: int) {
    r.createdAt < horizon && (r.lastAccessed.Some? ==> r.lastAccessed.value < horizon)
  }

  /** The creator does not run, and no process sits in the tree, under its own path
      or the one it links to. */
  predicate Unoccupied(s: State, r: Record) {
    && (r.creator.Some? ==> !(0 < r.creator.value <= 0x7fff_ffff && r.creator.value in s.pids))
    && forall cwd :: cwd in s.cwds ==>
         !(r.path <= cwd) && (r.path in s.disk && r.path in s.links ==> !(s.links[r.path] <= cwd))
  }

  lemma UnusedIff(r: Record, now: int, age: int)
    ensures UnusedSince(r, Horizon(now, age)) <==> LastActive(r) < Cutoff(now, age)
  {}

  lemma UnoccupiedIff(s: State, r: Record)
    ensures Unoccupied(s, r) <==> !Guarded(s, r, s.cwds)
  {}

  lemma DoomedIff(s: State, r: Record, opts: Options, now: int, age: int)
    ensures Doomed(s, r, RunOf(opts, age, now, s)) <==>
            UnusedSince(r, Horizon(now, age)) && (opts.force || Unoccupied(s, r))
  {
    UnusedIff(r, now, age);
    UnoccupiedIff(s, r);
  }

  /** A candidate whose tree is gone only loses its row, and is counted only when there
      was one to lose. */
  lemma GoneTreeIsDropped(s: State, rec: Record)
    requires rec.path !in s.disk
    ensures var t := Reclaim(s, rec);
            && t.state.disk == s.disk
            && (t.outcome == Expired <==> s.writable && exists row :: row in s.rows && row.id == rec.id)
            && (t.outcome != Expired ==> t.outcome == Ignored)
            && forall r :: r in t.state.rows <==> r in s.rows && (s.writable ==> r.id != rec.id)
  {}

  /** A candidate whose row has vanished, or cannot be read, when it is read again is
      passed over: nothing is removed, and nothing is counted. */
  lemma VanishedIsPassedOver(q: Progress, rec: Record, n: nat, others: Others, run: Run)
    requires !run.force && FirstPass(others.before(n, q.state), rec, run).None?
    requires var later := others.between(n, others.before(n, q.state));
             !later.readable || forall row :: row in later.rows ==> row.id != rec.id
    ensures NextProgress(q, rec, n, others, run) ==
            q.(state := others.between(n, others.before(n, q.state)))
  {}

  /** Every attempt passed the check of the listed row. */
  lemma {:induction false} AttemptsAreOld(p: Progress, list: seq<Record>, n: nat, others: Others, run: Run)
    requires n <= |list| && p.attempts == []
    ensures forall a :: a in ExpiredPass(p, list, n, others, run).attempts ==>
              LastActive(a.rec) < run.cutoff && !run.dryRun && (!run.force ==> a.at.readable)
  {
    if n > 0 {
      AttemptsAreOld(p, list, n - 1, others, run);
    }
  }

  lemma {:induction false} DeadPassShrinks(p: Progress, list: seq<Record>, n: nat)
    requires n <= |list|
    ensures forall r :: r in DeadPass(p, list, n).state.rows ==> r in p.state.rows
    ensures DeadPass(p, list, n).attempts == p.attempts
  {
    if n > 0 {
      DeadPassShrinks(p, list, n - 1);
    }
  }

  /** What is listed for the expired pass of a real run was alive and present. */
  lemma ListedWasPresent(s: State, r: Record)
    requires ReclaimDead(s, false).Some? && r in AliveRows(ReclaimDead(s, false).value.state.rows)
    ensures r in s.rows && Present(s, r)
  {
    var swept := s.(rows := Swept(s.rows, s.disk));
    DeadPassShrinks(Progress(swept, Report(0, 0, 0, 0), []), DeadRows(swept.rows), |DeadRows(swept.rows)|);
    assert r in swept.rows;
    var i :| 0 <= i < |s.rows| && swept.rows[i] == r;
    assert r == SweptRow(s.rows[i], s.disk);
  }

  lemma NoneTriedYet(s: State, dryRun: bool)
    requires ReclaimDead(s, dryRun).Some?
    ensures ReclaimDead(s, dryRun).value.attempts == []
  {
    var swept := s.(rows := Swept(s.rows, s.disk));
    DeadPassShrinks(Progress(swept, Report(0, 0, 0, 0), []), DeadRows(swept.rows), |DeadRows(swept.rows)|);
  }

  /** What an attempt of a collection was made on: a row listed alive and present and
      unused since the horizon; and without force, in a database that could be read, a
      row under its id that was at that moment unused since the horizon, its tree
      unoccupied. */
  ghost predicate AttemptInTime(s: State, opts: Options, now: int, age: int, a: Attempt) {
    && a.rec in s.rows && a.rec.alive && a.rec.path in s.disk && !opts.dryRun
    && UnusedSince(a.rec, Horizon(now, age))
    && (!opts.force ==> a.at.readable && exists row ::
          row in a.at.rows && row.id == a.rec.id && UnusedSince(row, Horizon(now, age)) && Unoccupied(a.at, row))
  }

  /** Over a whole collection, whatever the others do. */
  lemma CollectsInTime(s: State, opts: Options, now: int, others: Others, age: int, a: Attempt)
    requires opts.maxAge == Some(age) && Collect(s, opts, now, others).Some?
    requires a in Collect(s, opts, now, others).value.attempts
    ensures AttemptInTime(s, opts, now, age, a)
  {
    var p := ReclaimDead(s, opts.dryRun).value;
    var list, run := AliveRows(p.state.rows), RunOf(opts, age, now, p.state);
    NoneTriedYet(s, opts.dryRun);
    PassInTime(p, list, others, run, a);
    ListedWasPresent(s, a.rec);
    AttemptTimes(a, now, age, run);
  }

  lemma PassInTime(p: Progress, list: seq<Record>, others: Others, run: Run, a: Attempt)
    requires p.attempts == [] && a in ExpiredPass(p, list, |list|, others, run).attempts
    ensures a.rec in list && LastActive(a.rec) < run.cutoff && !run.dryRun
    ensures !run.force ==> a.at.readable && Justified(a, run)
  {
    AttemptsAreListed(p, list, |list|, others, run);
    AttemptsAreOld(p, list, |list|, others, run);
    if !run.force {
      TriedOnlyReclaimable(p, list, |list|, others, run);
    }
  }

  lemma AttemptTimes(a: Attempt, now: int, age: int, run: Run)
    requires run.cutoff == Cutoff(now, age) && LastActive(a.rec) < run.cutoff && (!run.force ==> Justified(a, run))
    ensures UnusedSince(a.rec, Horizon(now, age))
    ensures !run.force ==> exists row :: row in a.at.rows && row.id == a.rec.id
                                         && UnusedSince(row, Horizon(now, age)) && Unoccupied(a.at, row)
  {
    UnusedIff(a.rec, now, age);
    if !run.force {
      UnusedIff(ReadAgain(a).value, now, age);
      UnoccupiedIff(a.at, ReadAgain(a).value);
    }
  }

  /** The converse in a world at rest where removals succeed: a collection takes
      exactly the trees at or below a worktree, present, that was unused since the
      horizon and, without force, is unoccupied. */
  lemma TreeGoesIff(s: State, opts: Options, now: int, others: Others, age: int, q: Path)
    requires DistinctKeys(s.rows) && NestedNotLinked(s.rows, s.links)
    requires s.readable && s.writable && s.stuck == {} && AtRest(others)
    requires opts.maxAge == Some(age) && !opts.dryRun && q in s.disk
    ensures Collect(s, opts, now, others).Some?
    ensures q !in Collect(s, opts, now, others).value.state.disk <==>
            exists r :: r in s.rows && r.alive && r.path in s.disk && r.path <= q
                        && UnusedSince(r, Horizon(now, age)) && (opts.force || Unoccupied(s, r))
  {
    CollectsExactly(s, opts, now, others, age);
    forall r
      ensures Doomed(s, r, RunOf(opts, age, now, s)) <==>
              UnusedSince(r, Horizon(now, age)) && (opts.force || Unoccupied(s, r))
    {
      DoomedIff(s, r, opts, now, age);
    }
  }

  /** And in the default database exactly the rows of those go, and the lost ones. */
  lemma RowStaysIff(s: State, opts: Options, now: int, others: Others, age: int, r: Record)
    requires DistinctKeys(s.rows) && NestedNotLinked(s.rows, s.links)
    requires s.readable && s.writable && s.isDefault && s.stuck == {} && AtRest(others)
    requires opts.maxAge == Some(age) && !opts.dryRun && r in s.rows
    ensures Collect(s, opts, now, others).Some?
    ensures r in Collect(s, opts, now, others).value.state.rows <==>
            r.alive && r.path in s.disk && !(UnusedSince(r, Horizon(now, age)) && (opts.force || Unoccupied(s, r)))
  {
    CollectsExactly(s, opts, now, others, age);
    DoomedIff(s, r, opts, now, age);
  }

  lemma DistinctPaths(rows: seq<Record>)
    requires DistinctKeys(rows)
    ensures UniquePaths(rows)
  {}

  // ------------------------------------------------------ the collector

  /** `rows` is `rows0` with the lost ones among the first `n` of `todo` marked. */
  ghost predicate MarkedUpTo(rows0: seq<Record>, rows: seq<Record>, todo: seq<Record>, n: nat, disk: set<Path>)
    requires n <= |todo|
  {
    && |rows| == |rows0|
    && forall i :: 0 <= i < |rows0| ==> rows[i] == if rows0[i] in todo[..n] then SweptRow(rows0[i], disk) else rows0[i]
  }

  lemma MarkNext(rows0: seq<Record>, rows: seq<Record>, todo: seq<Record>, n: nat, disk: set<Path>)
    requires DistinctKeys(rows0) && n < |todo| && todo[n] in rows0
    requires MarkedUpTo(rows0, rows, todo, n, disk)
    ensures MarkedUpTo(rows0, if todo[n].path in disk then rows else MarkedDead(rows, todo[n].id), todo, n + 1, disk)
  {
    Grow(todo, n);
    DistinctIsUnique(rows0);
    assert forall i :: 0 <= i < |rows0| ==> rows0[i] in rows0 && rows[i].id == rows0[i].id;
  }

  lemma AllMarked(rows0: seq<Record>, rows: seq<Record>, disk: set<Path>)
    requires MarkedUpTo(rows0, rows, AliveRows(rows0), |AliveRows(rows0)|, disk)
    ensures rows == Swept(rows0, disk)
  {
    var todo := AliveRows(rows0);
    assert todo[..|todo|] == todo;
    forall i | 0 <= i < |rows0|
      ensures rows[i] == SweptRow(rows0[i], disk)
    {
      assert rows0[i] in rows0;
      assert rows0[i] in todo <==> rows0[i].alive;
    }
  }

  class Machine {
    var state: State

    constructor (state: State)
      ensures this.state == state
    {
      this.state := state;
    }

    /** Mark alive rows whose path is gone, row by row. */
    method SweepDead() returns (ok: bool)
      requires DistinctKeys(state.rows)
      modifies this
      ensures ok <==> old(state).readable && (old(state).writable || !LostAlive(old(state)))
      ensures state == if ok then old(state).(rows := Swept(old(state).rows, old(state).disk)) else old(state)
    {
      if !state.readable {
        return false;
      }
      ghost var s0 := state;
      var todo := AliveRows(state.rows);
      for n := 0 to |todo|
        invariant state == s0.(rows := state.rows)
        invariant MarkedUpTo(s0.rows, state.rows, todo, n, s0.disk)
        invariant s0.writable || (state == s0 && forall k :: 0 <= k < n ==> todo[k].path in s0.disk)
      {
        assert todo[n] in todo;
        MarkNext(s0.rows, state.rows, todo, n, s0.disk);
        if todo[n].path !in state.disk {
          if !state.writable {
            return false;
          }
          state := state.(rows := MarkedDead(state.rows, todo[n].id));
        }
      }
      AllMarked(s0.rows, state.rows, s0.disk);
      assert forall r :: r in s0.rows && r.alive ==> r in todo;
      ok := true;
    }

    /** Unregister the listed rows, counting those that went. */
    method DropRows(dead: seq<Record>) returns (count: nat)
      modifies this
      ensures DeadPass(Progress(old(state), Report(0, 0, 0, 0), []), dead, |dead|) ==
              Progress(state, Report(count, 0, 0, 0), [])
    {
      count := 0;
      ghost var p := Progress(state, Report(0, 0, 0, 0), []);
      for n := 0 to |dead|
        invariant DeadPass(p, dead, n) == Progress(state, Report(count, 0, 0, 0), [])
      {
        var (after, gone) := Unregister(state, dead[n].id);
        state := after;
        if gone == Some(true) {
          count := count + 1;
        }
      }
    }

    /** Dead-record reclamation. */
    method ReclaimDeadRows(dryRun: bool) returns (report: Option<Report>)
      requires DistinctKeys(state.rows)
      modifies this
      ensures match ReclaimDead(old(state), dryRun)
              case None => report == None && state == old(state)
              case Some(p) => report == Some(p.report) && state == p.state && p.attempts == []
    {
      if dryRun {
        return if state.readable then Some(Report(|DeadOf(state)|, 0, 0, 0)) else None;
      }
      var ok := SweepDead();
      if !ok {
        return None;
      }
      var count := DropRows(DeadRows(state.rows));
      report := Some(Report(count, 0, 0, 0));
    }

    /** One candidate: pass over it, or try to remove it. */
    method Consider(rec: Record, move: State -> State, run: Run) returns (outcome: Outcome, tried: Option<State>)
      modifies this
      ensures TurnOf(old(state), move, rec, run) == Turn(state, outcome, tried)
    {
      if LastActive(rec) >= run.cutoff {
        return Recent, None;
      }
      if !run.force && Guarded(state, rec, run.scan) {
        return Skipped, None;
      }
      if run.dryRun {
        return if rec.path in state.disk then Expired else Ignored, None;
      }
      state := move(state);
      if !run.force {
        if !state.readable {
          return Ignored, None;
        }
        match GetById(state.rows, rec.id) {
          case None =>
            return Ignored, None;
          case Some(row) =>
            if !Reclaimable(state, row, run.cutoff, state.cwds) {
              return Skipped, None;
            }
        }
      }
      tried := Some(state);
      if rec.path in state.disk {
        var (after, ok) := RemoveWorktree(state, rec.path);
        state := after;
        outcome := if ok then Expired else RemoveFailed;
      } else {
        var (after, gone) := Unregister(state, rec.id);
        state := after;
        outcome := if gone == Some(true) then Expired else Ignored;
      }
    }

    /** The guarded pass over the expired rows, one after another. */
    method ReclaimExpired(list: seq<Record>, others: Others, run: Run, before: Report)
      returns (report: Report, attempts: seq<Attempt>)
      modifies this
      ensures Progress(state, report, attempts) ==
              ExpiredPass(Progress(old(state), before, []), list, |list|, others, run)
    {
      report, attempts := before, [];
      ghost var p := Progress(state, before, []);
      for n := 0 to |list|
        invariant Progress(state, report, attempts) == ExpiredPass(p, list, n, others, run)
      {
        state := others.before(n, state);
        var outcome, tried := Consider(list[n], Between(others, n), run);
        match outcome {
          case Skipped => report := report.(skipped := report.skipped + 1);
          case Expired => report := report.(expired := report.expired + 1);
          case RemoveFailed => report := report.(failed := report.failed + 1);
          case _ =>
        }
        if tried.Some? {
          attempts := attempts + [Attempt(list[n], tried.value)];
        }
      }
    }

    /** The whole collection: `None` when the database cannot be read or swept. */
    method CollectGarbage(opts: Options, now: int, others: Others) returns (report: Option<Report>, attempts: seq<Attempt>)
      requires DistinctKeys(state.rows)
      modifies this
      ensures match Collect(old(state), opts, now, others)
              case None => report == None && state == old(state)
              case Some(p) => report == Some(p.report) && state == p.state && attempts == p.attempts
    {
      attempts := [];
      report := ReclaimDeadRows(opts.dryRun);
      if report.None? || opts.maxAge.None? {
        return;
      }
      var list := AliveRows(state.rows);
      var after;
      after, attempts := ReclaimExpired(list, others, RunOf(opts, opts.maxAge.value, now, state), report.value);
      report := Some(after);
    }
  }
}
