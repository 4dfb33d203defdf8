/** Deadlock freedom and termination of interleaved sessions. */
module Progress {
  import opened Domain
  import opened Ledger
  import opened Engine
  import opened Sessions

  // ─── What is drawn at random ───────────────────────────────────────────

  /** The row ids the server draws for a request. */
  function DrawnIds(q: Request): set<Uuid> {
    match q
    case RegisterDebt(_, _, _, rowId) => {rowId}
    case RegisterPayment(_, _, _, _, rowId) => {rowId}
    case RegisterMixed(_, _, _, _, _, _, cashId, transferId, _, _) => {cashId, transferId}
    case Forgive(_, _, rowId) => {rowId}
    case Reverse(_, _, rowId) => {rowId}
    case Inflate(_, _, slots) => set i | 0 <= i < |slots| :: slots[i].rowId
    case _ => {}
  }

  /** The idempotency keys it draws besides the client's own. */
  function DrawnKeys(q: Request): set<Uuid> {
    match q
    case RegisterMixed(_, _, _, _, _, _, _, _, transferKey, _) => {transferKey}
    case Inflate(_, _, slots) => set i | 0 <= i < |slots| :: slots[i].rowKey
    case _ => {}
  }

  /** Random draws never meet another session's draws or client keys. */
  predicate DrawnApart(e: Env, f: Env) {
    && DrawnIds(e.request) !! DrawnIds(f.request) && DrawnKeys(e.request) !! DrawnKeys(f.request)
    && (HasLedgerKey(f.request) ==> f.request.key !in DrawnKeys(e.request))
    && (HasLedgerKey(e.request) ==> e.request.key !in DrawnKeys(f.request))
  }

  predicate Ascending(order: seq<Uuid>) {
    forall i, j | 0 <= i < j < |order| :: order[i] < order[j]
  }

  /** Locks are taken in ascending order. For a batch this is up to the order in which the
      database returns the rows; all other requests take theirs so by construction. */
  predicate LocksInOrder(e: Env) {
    e.request.Inflate? ==> Ascending(LockOrder(e.request, None))
  }

  lemma OrderAscends(s: Session)
    requires OnTrack(s) && Active(s) && LocksInOrder(s.env)
    ensures Ascending(Order(s))
  {
    if s.env.request.Inflate? {
      assert Order(s) == LockOrder(s.env.request, None);
    }
  }

  predicate IsDrawnFor(r: Row, slot: Slot) {
    r.id == slot.rowId && r.key == slot.rowKey
  }

  ghost predicate IsDrawn(r: Row, slots: seq<Slot>) {
    exists i :: 0 <= i < |slots| && IsDrawnFor(r, slots[i])
  }

  lemma {:induction false} BatchDraws(e: Env, customers: map<Uuid, Customer>, rate: Rate, slots: seq<Slot>)
    ensures var rows := InflationRows(e, customers, rate, slots);
            |rows| <= |slots| && forall k | 0 <= k < |rows| :: IsDrawn(rows[k], slots)
  {
    if slots != [] {
      var n := |slots| - 1;
      BatchDraws(e, customers, rate, slots[..n]);
      var rows, before := InflationRows(e, customers, rate, slots), InflationRows(e, customers, rate, slots[..n]);
      forall k | 0 <= k < |rows| ensures IsDrawn(rows[k], slots) {
        if k < |before| {
          assert IsDrawn(before[k], slots[..n]);
          var i :| 0 <= i < n && IsDrawnFor(before[k], slots[..n][i]);
          assert IsDrawnFor(rows[k], slots[i]);
        } else {
          assert IsDrawnFor(rows[k], slots[n]);
        }
      }
    }
  }

  /** Each row of a plan carries a drawn id, and a drawn key unless it is the client's. */
  lemma RowsAreDrawn(s: Session, k: nat)
    requires OnTrack(s) && s.phase.Writing? && k < |s.plan.rows|
    ensures s.plan.rows[k].id in DrawnIds(s.env.request)
    ensures || s.plan.rows[k].key in DrawnKeys(s.env.request)
            || (k == 0 && HasLedgerKey(s.env.request) && s.plan.rows[k].key == s.env.request.key)
  {
    if s.env.request.Inflate? {
      BatchDraws(s.env, s.copies, s.env.request.rate, s.env.request.slots);
      assert IsDrawn(s.plan.rows[k], s.env.request.slots);
      var i :| 0 <= i < |s.env.request.slots| && IsDrawnFor(s.plan.rows[k], s.env.request.slots[i]);
    }
  }

  // ─── The wait-for relation ─────────────────────────────────────────────

  ghost predicate WaitsForLock(db: Store, s: Session, t: Session) {
    && s.phase.Locking? && s.taken < |Order(s)|
    && Owns(db, s.env.tenant, Order(s)[s.taken]) && Holds(t, Order(s)[s.taken])
  }

  ghost predicate WaitsForRow(s: Session, t: Session) {
    s.phase.Writing? && s.done < |s.plan.rows| && ClashesWith(s.plan.rows[s.done], PendingRows(t))
  }

  ghost predicate WaitsForBatch(s: Session, t: Session) {
    && s.phase.Writing? && s.done == |s.plan.rows| && s.plan.batch.Some? && !s.recorded
    && PendingBatch(t) && SameBatchKey(s, t)
  }

  /** Session `i` cannot go on before session `j` ends. */
  ghost predicate Waits(sys: System, i: nat, j: nat) {
    i < |sys.sessions| && j < |sys.sessions| && i != j &&
    var s, t := sys.sessions[i], sys.sessions[j];
    WaitsForLock(sys.db, s, t) || WaitsForRow(s, t) || WaitsForBatch(s, t)
  }

  ghost predicate CanStep(sys: System, i: nat) {
    exists a: Action :: !a.Abort? && Enabled(sys, i, a)
  }

  /** A session that is not finished and cannot step waits for another one. */
  lemma BlockedMeansWaiting(sys: System, i: nat) returns (j: nat)
    requires Core(sys) && i < |sys.sessions| && !Finished(sys.sessions[i]) && !CanStep(sys, i)
    ensures Waits(sys, i, j)
  {
    hide Apply, VerdictOf, Current, Fitting;
    var s := sys.sessions[i];
    assert Sound(sys.db, s);
    assert !Enabled(sys, i, Begin) && !Enabled(sys, i, Read) && !Enabled(sys, i, Lock) && !Enabled(sys, i, Choose);
    assert !Enabled(sys, i, InsertRow) && !Enabled(sys, i, InsertBatch) && !Enabled(sys, i, Commit);
    if s.phase.Locking? {
      assert LockBusy(sys, i);
      j :| 0 <= j < |sys.sessions| && j != i && Holds(sys.sessions[j], Order(s)[s.taken]);
    } else if s.done < |s.plan.rows| {
      assert RowBusy(sys, i);
      j :| 0 <= j < |sys.sessions| && j != i && ClashesWith(s.plan.rows[s.done], PendingRows(sys.sessions[j]));
    } else {
      assert BatchBusy(sys, i);
      j :| 0 <= j < |sys.sessions| && j != i && PendingBatch(sys.sessions[j]) && SameBatchKey(s, sys.sessions[j]);
    }
  }

  // ─── Resources are ranked ──────────────────────────────────────────────

  /** The session's inserts have passed its client key. */
  predicate Claimed(s: Session) {
    if HasLedgerKey(s.env.request) then s.done >= 1 else if s.env.request.Inflate? then s.recorded else true
  }

  function Stage(s: Session): nat {
    if s.phase.Waiting? || s.phase.Checked? then 0
    else if s.phase.Locking? then if s.taken < |Order(s)| then 1 else 2
    else if s.phase.Writing? then if Claimed(s) then 4 else 3
    else 5
  }

  /** The row a session asks for while it is locking. */
  function Wanted(s: Session): nat {
    if s.phase.Locking? && s.taken < |Order(s)| then Order(s)[s.taken] else 0
  }

  /** Customer rows ascending, then keys. */
  predicate Below(s: Session, t: Session) {
    Stage(s) < Stage(t) || (Stage(s) == Stage(t) && Wanted(s) < Wanted(t))
  }

  ghost predicate AllApart(sys: System) {
    forall i, j | 0 <= i < |sys.sessions| && 0 <= j < |sys.sessions| && i != j ::
      DrawnApart(sys.sessions[i].env, sys.sessions[j].env)
  }

  ghost predicate AllInOrder(sys: System) {
    forall i | 0 <= i < |sys.sessions| :: LocksInOrder(sys.sessions[i].env)
  }

  lemma LockWaitAscends(db: Store, s: Session, t: Session)
    requires OnTrack(t) && LocksInOrder(t.env) && WaitsForLock(db, s, t)
    ensures Below(s, t) && !Finished(t)
  {
    if t.phase.Locking? && t.taken < |Order(t)| {
      OrderAscends(t);
      var c := Order(s)[s.taken];
      var k :| 0 <= k < |Held(t)| && Held(t)[k] == c;
      assert Order(t)[k] == c;
    }
  }

  lemma RowWaitAscends(s: Session, t: Session)
    requires OnTrack(s) && OnTrack(t) && DrawnApart(s.env, t.env) && WaitsForRow(s, t)
    ensures Below(s, t) && !Finished(t)
  {
    var row := s.plan.rows[s.done];
    var m :| 0 <= m < |PendingRows(t)| && Clash(row, PendingRows(t)[m]);
    assert PendingRows(t)[m] == t.plan.rows[m];
    RowsAreDrawn(s, s.done);
    RowsAreDrawn(t, m);
  }

  /** Whoever waits stands below the one it waits for. */
  lemma WaitsAscend(sys: System, i: nat, j: nat)
    requires Core(sys) && AllApart(sys) && AllInOrder(sys) && Waits(sys, i, j)
    ensures Below(sys.sessions[i], sys.sessions[j]) && !Finished(sys.sessions[j])
  {
    hide Below, OnTrack, WaitsForLock, WaitsForRow, Current, Fitting, DrawnApart, LocksInOrder;
    var s, t := sys.sessions[i], sys.sessions[j];
    assert Sound(sys.db, s) && Sound(sys.db, t);
    if WaitsForLock(sys.db, s, t) {
      LockWaitAscends(sys.db, s, t);
    } else if WaitsForRow(s, t) {
      assert DrawnApart(s.env, t.env);
      RowWaitAscends(s, t);
    } else {
      BatchWaitAscends(s, t);
    }
  }

  lemma BatchWaitAscends(s: Session, t: Session)
    requires WaitsForBatch(s, t)
    ensures Below(s, t) && !Finished(t)
  {
  }

  ghost predicate Chain(sys: System, path: seq<nat>) {
    && (forall k | 0 <= k < |path| :: path[k] < |sys.sessions|)
    && (forall k | 0 <= k < |path| - 1 :: Waits(sys, path[k], path[k + 1]))
  }

  lemma {:induction false} ChainAscends(sys: System, path: seq<nat>)
    requires Core(sys) && AllApart(sys) && AllInOrder(sys) && |path| >= 2 && Chain(sys, path)
    ensures Below(sys.sessions[path[0]], sys.sessions[path[|path| - 1]])
  {
    hide Core, AllApart, AllInOrder, Waits;
    var n := |path| - 1;
    assert Waits(sys, path[n - 1], path[n]);
    WaitsAscend(sys, path[n - 1], path[n]);
    if n > 1 {
      assert Chain(sys, path[..n]);
      ChainAscends(sys, path[..n]);
    }
  }

  // ─── Every interleaving ────────────────────────────────────────────────

  /** Requests whose random draws do not collide and whose batches, if any, lock in order. */
  ghost predicate Orderly(es: seq<Env>) {
    && AllInterleaved(es)
    && (forall i | 0 <= i < |es| :: LocksInOrder(es[i]))
    && (forall i, j | 0 <= i < |es| && 0 <= j < |es| && i != j :: DrawnApart(es[i], es[j]))
  }

  lemma ReachedIsOrderly(db: Store, es: seq<Env>, steps: seq<Step>)
    requires Orderly(es) && Allowed(Start(db, es), steps)
    ensures var sys := Reached(Start(db, es), steps); Core(sys) && AllApart(sys) && AllInOrder(sys)
  {
    hide Core, DrawnApart, LocksInOrder, Allowed, Reached, Start;
    ReachedIsCore(db, es, steps);
  }

  /** No deadlock: in every reachable state the wait-for graph is acyclic, crossed merges of the
      same two customers included. */
  lemma NoWaitCycle(db: Store, es: seq<Env>, steps: seq<Step>, path: seq<nat>)
    requires Orderly(es) && Allowed(Start(db, es), steps)
    requires |path| >= 2 && Chain(Reached(Start(db, es), steps), path)
    ensures path[0] != path[|path| - 1]
  {
    hide Core, AllApart, AllInOrder, Orderly, Chain, Allowed, Reached, Start;
    ReachedIsOrderly(db, es, steps);
    var sys := Reached(Start(db, es), steps);
    ChainAscends(sys, path);
  }

  /** An unfinished session, among the first `n`, that no other of them stands above. */
  lemma {:induction false} Topmost(sys: System, n: nat) returns (m: nat)
    requires n <= |sys.sessions| && exists i :: 0 <= i < n && !Finished(sys.sessions[i])
    ensures m < n && !Finished(sys.sessions[m])
    ensures forall k | 0 <= k < n && !Finished(sys.sessions[k]) :: !Below(sys.sessions[m], sys.sessions[k])
  {
    if exists i :: 0 <= i < n - 1 && !Finished(sys.sessions[i]) {
      m := Topmost(sys, n - 1);
      if !Finished(sys.sessions[n - 1]) && Below(sys.sessions[m], sys.sessions[n - 1]) {
        m := n - 1;
      }
    } else {
      m := n - 1;
    }
  }

  /** As long as a session is unfinished, some unfinished session can take a step other than
      giving up. */
  lemma SomeoneCanStep(db: Store, es: seq<Env>, steps: seq<Step>)
    requires Orderly(es) && Allowed(Start(db, es), steps)
    requires var sys := Reached(Start(db, es), steps); exists i :: 0 <= i < |sys.sessions| && !Finished(sys.sessions[i])
    ensures var sys := Reached(Start(db, es), steps);
            exists i :: 0 <= i < |sys.sessions| && !Finished(sys.sessions[i]) && CanStep(sys, i)
  {
    hide Core, AllApart, AllInOrder, Orderly, Below, CanStep, Waits, Allowed, Reached, Start;
    ReachedIsOrderly(db, es, steps);
    var sys := Reached(Start(db, es), steps);
    var m := Topmost(sys, |sys.sessions|);
    if !CanStep(sys, m) {
      var j := BlockedMeansWaiting(sys, m);
      InRange(sys, m, j);
      WaitsAscend(sys, m, j);
    }
  }

  lemma InRange(sys: System, i: nat, j: nat)
    requires Waits(sys, i, j)
    ensures i < |sys.sessions| && j < |sys.sessions|
  {
  }

  // ─── Termination ───────────────────────────────────────────────────────

  function LocksAtMost(q: Request): nat {
    if q.Inflate? then |q.slots| else 2
  }

  function InsertsAtMost(q: Request): nat {
    if q.Inflate? then |q.slots| + 1 else 2
  }

  /** A bound on the steps a session still takes. */
  function Work(s: Session): int {
    match s.phase
    case Waiting => LocksAtMost(s.env.request) + InsertsAtMost(s.env.request) + 4
    case Checked => LocksAtMost(s.env.request) + InsertsAtMost(s.env.request) + 3
    case Locking => LocksAtMost(s.env.request) - s.taken + InsertsAtMost(s.env.request) + 2
    case Writing => |s.plan.rows| - s.done + (if s.plan.batch.Some? && !s.recorded then 1 else 0) + 1
    case _ => 0
  }

  function TotalWork(sessions: seq<Session>): int {
    if sessions == [] then 0 else TotalWork(sessions[..|sessions| - 1]) + Work(sessions[|sessions| - 1])
  }

  lemma PlanIsBounded(s: Session)
    requires OnTrack(s) && s.phase.Writing?
    ensures |s.plan.rows| + (if s.plan.batch.Some? then 1 else 0) <= InsertsAtMost(s.env.request)
  {
    if s.env.request.Inflate? {
      BatchDraws(s.env, s.copies, s.env.request.rate, s.env.request.slots);
    }
  }

  lemma WorkIsNatural(s: Session)
    requires OnTrack(s)
    ensures Work(s) >= 0 && (!Finished(s) ==> Work(s) >= 1)
  {
  }

  /** A step that does not end its session brings it one statement further. */
  lemma StepAdvances(sys: System, i: nat, a: Action)
    requires i < |sys.sessions| && Enabled(sys, i, a) && !Finished(SessionAfter(sys, i, a))
    ensures var s, t := sys.sessions[i], SessionAfter(sys, i, a);
            && t.env == s.env
            && match a
               case Begin => t == s.(phase := t.phase) && s.phase.Waiting? && (t.phase.Locking? || t.phase.Checked?)
               case Read => t == s.(phase := Locking, original := t.original) && s.phase.Checked?
               case Lock => t == s.(taken := s.taken + 1, copies := t.copies)
               case Choose => t.phase.Writing? && t.done == 0 && !t.recorded
               case InsertRow => t == s.(done := s.done + 1)
               case InsertBatch => t == s.(recorded := true) && !s.recorded && s.plan.batch.Some?
               case _ => false
  {
    hide Apply, ReplayOf, VerdictOf, RowRefused, LockBusy, RowBusy, BatchBusy, FindTx;
  }

  lemma AdvanceIsWork(s: Session, t: Session, a: Action)
    requires OnTrack(s) && OnTrack(t) && t.env == s.env && !Finished(s) && !Finished(t)
    requires a.Begin? ==> s.phase.Waiting? && (t.phase.Locking? || t.phase.Checked?) && t.taken == s.taken
    requires a.Read? ==> s.phase.Checked? && t.phase.Locking? && t.taken == s.taken
    requires a.Lock? ==> s.phase.Locking? && t.phase.Locking? && t.taken == s.taken + 1
    requires a.Choose? ==> s.phase.Locking? && s.taken == |Order(s)| && t.phase.Writing? && t.done == 0 && !t.recorded
    requires a.InsertRow? ==> s.phase.Writing? && t == s.(done := s.done + 1)
    requires a.InsertBatch? ==> s.phase.Writing? && t == s.(recorded := true) && !s.recorded && s.plan.batch.Some?
    requires !a.Commit? && !a.Abort?
    ensures Work(t) < Work(s)
  {
    hide VerdictOf;
    if a.Choose? {
      PlanIsBounded(t);
    }
  }

  lemma StepWorks(sys: System, i: nat, a: Action)
    requires Core(sys) && i < |sys.sessions| && Enabled(sys, i, a) && Core(After(sys, i, a))
    ensures Work(SessionAfter(sys, i, a)) < Work(sys.sessions[i])
  {
    hide OnTrack, SessionAfter, DbAfter, Current, Fitting, LockBusy, RowBusy, BatchBusy;
    var s, t := sys.sessions[i], SessionAfter(sys, i, a);
    assert Sound(sys.db, s);
    assert After(sys, i, a).sessions[i] == t;
    assert Sound(After(sys, i, a).db, t);
    WorkIsNatural(s);
    if !Finished(t) {
      StepAdvances(sys, i, a);
      AdvanceIsWork(s, t, a);
    }
  }

  lemma {:induction false} LessWork(before: seq<Session>, i: nat, t: Session)
    requires i < |before| && Work(t) < Work(before[i])
    ensures TotalWork(before[i := t]) < TotalWork(before)
  {
    var n := |before| - 1;
    if i == n {
      assert before[i := t][..n] == before[..n];
    } else {
      assert before[i := t][..n] == before[..n][i := t];
      LessWork(before[..n], i, t);
    }
  }

  lemma {:induction false} TotalIsNatural(sessions: seq<Session>)
    requires forall i | 0 <= i < |sessions| :: OnTrack(sessions[i])
    ensures TotalWork(sessions) >= 0
  {
    hide OnTrack;
    if sessions != [] {
      TotalIsNatural(sessions[..|sessions| - 1]);
      WorkIsNatural(sessions[|sessions| - 1]);
    }
  }

  /** Termination: every interleaving, whatever its schedule, takes a bounded number of steps. */
  lemma {:induction false} StepsAreBounded(db: Store, es: seq<Env>, steps: seq<Step>)
    requires AllInterleaved(es) && Allowed(Start(db, es), steps)
    ensures |steps| + TotalWork(Reached(Start(db, es), steps).sessions) <= TotalWork(Start(db, es).sessions)
    ensures |steps| <= TotalWork(Start(db, es).sessions)
  {
    hide Core, SessionAfter, DbAfter, Enabled, Work, OnTrack, Current, Fitting;
    if steps != [] {
      var n := |steps| - 1;
      var sys, i, a := Reached(Start(db, es), steps[..n]), steps[n].session, steps[n].action;
      StepsAreBounded(db, es, steps[..n]);
      ReachedIsCore(db, es, steps[..n]);
      ReachedIsCore(db, es, steps);
      EnabledIsInRange(sys, i, a);
      StepWorks(sys, i, a);
      LessWork(sys.sessions, i, SessionAfter(sys, i, a));
    }
    ReachedIsCore(db, es, steps);
    CoreIsOnTrack(Reached(Start(db, es), steps));
    TotalIsNatural(Reached(Start(db, es), steps).sessions);
  }

  lemma CoreIsOnTrack(sys: System)
    requires Core(sys)
    ensures forall i | 0 <= i < |sys.sessions| :: OnTrack(sys.sessions[i])
  {
    hide OnTrack, Current, Fitting, Exclusive, Apart;
    forall i | 0 <= i < |sys.sessions| ensures OnTrack(sys.sessions[i]) {
      assert Sound(sys.db, sys.sessions[i]);
    }
  }

  lemma EnabledIsInRange(sys: System, i: nat, a: Action)
    requires Enabled(sys, i, a)
    ensures i < |sys.sessions|
  {
  }
}
