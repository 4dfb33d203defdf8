/** Which concurrent requests keep every schedule serial: exactly those among which nobody can change
    the row of another's reversal. */
module Disturbances {
  import opened Domain
  import opened Ledger
  import opened Till
  import opened Engine
  import opened Invariants
  import opened Sessions
  import opened Serial
  import opened Reversals
  import opened Anomalies
  import opened ReversedOnce

  // ─── Disturbing requests ───────────────────────────────────────────────

  /** A payment that the closing of a shift now open would freeze. */
  ghost predicate Freezable(db: Store, o: Row) {
    exists h :: 0 <= h < |db.shifts| && Awaits(db.shifts[h], o)
  }

  predicate Awaits(h: Shift, o: Row) {
    IsOpenOf(h, o.tenant) && Pending(o, o.tenant, h.openedAt)
  }

  /** `f` can change the row that the reversal `e` reads before it locks: it reverses the same row
      under another key, it merges away the row's customer, or it closes the shift that has yet to
      account for the row. While the row is not in the tables any merge or closing of the tenant
      may do so. */
  ghost predicate Disturbs(db: Store, f: Env, e: Env) {
    e.request.Reverse? && f.tenant == e.tenant &&
    var found := FindTx(db.ledger, e.tenant, e.request.target);
    || Rivals(f, e)
    || (f.request.Merge? && (found.None? || f.request.secondary == found.value.customer))
    || (f.request.CloseTurn? && (found.None? || Freezable(db, found.value)))
  }

  /** No session disturbs another's reversal. */
  ghost predicate Undisturbed(db: Store, es: seq<Env>) {
    forall i, j | 0 <= i < |es| && 0 <= j < |es| && i != j :: !Disturbs(db, es[i], es[j])
  }

  ghost predicate NotBefore(l: seq<Row>, t: int) {
    forall k | 0 <= k < |l| :: l[k].createdAt <= t
  }

  /** Shifts are opened no earlier than the rows already in the ledger. */
  ghost predicate ClockAhead(db: Store, es: seq<Env>) {
    forall i | 0 <= i < |es| && es[i].request.OpenTurn? :: NotBefore(db.ledger, es[i].now)
  }

  // ─── What undisturbed sessions keep ────────────────────────────────────

  /** Every open shift was open at the start, or was opened after the rows of the start. */
  ghost predicate OldOrLate(db0: Store, db: Store) {
    forall h | 0 <= h < |db.shifts| && db.shifts[h].status == OPEN ::
      db.shifts[h] in db0.shifts || NotBefore(db0.ledger, db.shifts[h].openedAt)
  }

  /** The row a reversal names is still as it was at the start, or the reversal's key is taken. */
  ghost predicate Untouched(db0: Store, db: Store, e: Env)
    requires e.request.Reverse?
  {
    var found := FindTx(db0.ledger, e.tenant, e.request.target);
    OnFile(db, e) || (found.Some? ==> found.value in db.ledger)
  }

  /** The row a running reversal read is still as it read it, or its key is taken. */
  ghost predicate CurrentOrTaken(db: Store, s: Session) {
    Active(s) && s.env.request.Reverse? ==>
      s.original.Some? && (OnFile(db, s.env) || s.original.value in db.ledger)
  }

  ghost predicate Calm(db0: Store, sys: System) {
    && OldOrLate(db0, sys.db)
    && (forall i | 0 <= i < |sys.sessions| && sys.sessions[i].env.request.Reverse? ::
          Untouched(db0, sys.db, sys.sessions[i].env))
    && (forall i | 0 <= i < |sys.sessions| :: CurrentOrTaken(sys.db, sys.sessions[i]))
  }

  /** The row that `e` names, if the start had it, is `r`. */
  ghost predicate SinceStart(db0: Store, e: Env, r: Row)
    requires e.request.Reverse?
  {
    var found := FindTx(db0.ledger, e.tenant, e.request.target);
    found.Some? ==> found.value == r
  }

  /** Another reversal of the row that commits is under the same key, and takes it. */
  lemma ReversalTakesKey(db: Store, s: Session, e: Env, r: Row)
    requires Unique(db.ledger) && Sound(db, s) && ReadyToCommit(s) && s.env.request.Reverse? && OriginalKept(db, s)
    requires Names(e, r) && r in db.ledger && r.id == s.original.value.id && !Rivals(s.env, e)
    ensures OnFile(Publish(db, s), e)
  {
    hide Current, Fitting, VerdictOf, Publish, OnFile, Unique;
    var k := AtIndex(db.ledger, r);
    var n :| 0 <= n < |db.ledger| && SameEntry(s.original.value, db.ledger[n]);
    SameRow(db.ledger, k, n);
    CommitClaimsKey(db, s);
    SameKeySameFile(Publish(db, s), s.env, e);
  }

  /** What the commit of another session leaves of a row. */
  lemma CommitKeepsRow(db0: Store, db: Store, s: Session, e: Env, r: Row)
    requires Unique(db.ledger) && Sound(db, s) && ReadyToCommit(s) && MovesCurrent(db, s) && OriginalKept(db, s)
    requires Names(e, r) && r in db.ledger && SinceStart(db0, e, r) && !Disturbs(db0, s.env, e)
    ensures OnFile(Publish(db, s), e) || r in Publish(db, s).ledger
  {
    hide Current, Fitting, VerdictOf, OnFile, Unique;
    var k := AtIndex(db.ledger, r);
    if s.env.request.Reverse? && s.original.value.id == r.id {
      assert Disturbs(db0, s.env, e) <== Rivals(s.env, e);
      ReversalTakesKey(db, s, e, r);
    } else {
      if s.env.request.Merge? {
        MovedByIdIsMovedByOwner(db.ledger, s);
      }
      assert Rewritten(db.ledger[k], s) == r;
      assert Publish(db, s).ledger[k] == r;
    }
  }

  /** A row of the start that no shift of the start would freeze is not awaited by a later one. */
  lemma NothingAwaits(db0: Store, db: Store, r: Row)
    requires OldOrLate(db0, db) && r in db0.ledger && !Freezable(db0, r)
    ensures forall h | 0 <= h < |db.shifts| :: !Awaits(db.shifts[h], r)
  {
    forall h | 0 <= h < |db.shifts| ensures !Awaits(db.shifts[h], r) {
      if db.shifts[h] in db0.shifts {
        var m :| 0 <= m < |db0.shifts| && db0.shifts[m] == db.shifts[h];
      }
    }
  }

  /** What opening or closing a shift leaves of a row. */
  lemma AtomicKeepsRow(db0: Store, db: Store, f: Env, e: Env, r: Row)
    requires Atomic(f.request) && OldOrLate(db0, db)
    requires Names(e, r) && r in db.ledger && SinceStart(db0, e, r) && !Disturbs(db0, f, e)
    ensures r in Apply(db, f).store.ledger
  {
    hide OldOrLate, Freezable, CashDue;
    var k := AtIndex(db.ledger, r);
    if f.request.CloseTurn? && f.tenant == e.tenant {
      NothingAwaits(db0, db, r);
      assert forall h | h in db.shifts :: !Awaits(h, r);
    }
    assert Apply(db, f).store.ledger[k] == r;
  }

  /** A step that does not disturb it leaves a row alone, or takes the key of its reversal. */
  lemma StepKeepsRow(db0: Store, sys: System, i: nat, a: Action, e: Env, r: Row)
    requires Core(sys) && Traceable(sys) && AllMovesCurrent(sys) && OldOrLate(db0, sys.db)
    requires i < |sys.sessions| && Enabled(sys, i, a)
    requires Names(e, r) && r in sys.db.ledger && SinceStart(db0, e, r) && !Disturbs(db0, sys.sessions[i].env, e)
    ensures OnFile(DbAfter(sys, i, a), e) || r in DbAfter(sys, i, a).ledger
  {
    hide Apply, Unique, OnFile, Sound, MovesCurrent, OriginalKept, Names, SinceStart, Disturbs, OldOrLate, Publish,
      PlanFits;
    var s := sys.sessions[i];
    if a.Commit? && PlanFits(s.plan) {
      assert Sound(sys.db, s) && MovesCurrent(sys.db, s) && OriginalKept(sys.db, s);
      CommitKeepsRow(db0, sys.db, s, e, r);
    } else if a.Begin? && Atomic(s.env.request) {
      AtomicKeepsRow(db0, sys.db, s.env, e, r);
    }
  }

  lemma NobodyDisturbsItself(db: Store, e: Env)
    ensures !Disturbs(db, e, e)
  {
  }

  lemma StepKeepsUntouched(db0: Store, sys: System, i: nat, a: Action, e: Env)
    requires Core(sys) && Traceable(sys) && AllMovesCurrent(sys) && OldOrLate(db0, sys.db)
    requires i < |sys.sessions| && Enabled(sys, i, a) && e.request.Reverse? && !Disturbs(db0, sys.sessions[i].env, e)
    requires Untouched(db0, sys.db, e)
    ensures Untouched(db0, DbAfter(sys, i, a), e)
  {
    hide Core, Traceable, AllMovesCurrent, OldOrLate, Disturbs, OnFile, DbAfter, Enabled;
    if OnFile(sys.db, e) {
      OnFileForEver(sys, i, a, e);
    } else {
      var found := FindTx(db0.ledger, e.tenant, e.request.target);
      if found.Some? {
        StepKeepsRow(db0, sys, i, a, e, found.value);
      }
    }
  }

  /** What a running reversal read is the row of the start, if that had it. */
  lemma ReadSinceStart(db0: Store, db: Store, s: Session)
    requires Unique(db.ledger) && OnTrack(s) && Active(s) && s.env.request.Reverse? && Untouched(db0, db, s.env)
    requires !OnFile(db, s.env) && s.original.value in db.ledger
    ensures Names(s.env, s.original.value) && SinceStart(db0, s.env, s.original.value)
  {
    hide OnFile, Unique, VerdictOf;
    var found := FindTx(db0.ledger, s.env.tenant, s.env.request.target);
    if found.Some? {
      var k := AtIndex(db.ledger, found.value);
      var n := AtIndex(db.ledger, s.original.value);
      SameRow(db.ledger, k, n);
    }
  }

  lemma OthersStayCurrentOrTaken(db0: Store, sys: System, i: nat, a: Action, j: nat)
    requires Core(sys) && Traceable(sys) && AllMovesCurrent(sys) && OldOrLate(db0, sys.db)
    requires i < |sys.sessions| && Enabled(sys, i, a) && j < |sys.sessions|
    requires !Disturbs(db0, sys.sessions[i].env, sys.sessions[j].env)
    requires sys.sessions[j].env.request.Reverse? ==> Untouched(db0, sys.db, sys.sessions[j].env)
    requires CurrentOrTaken(sys.db, sys.sessions[j])
    ensures CurrentOrTaken(DbAfter(sys, i, a), sys.sessions[j])
  {
    hide AllMovesCurrent, OldOrLate, Disturbs, OnFile, DbAfter, Enabled, Unique, OriginalKept, Untouched, Names,
      SinceStart, Current, Fitting, VerdictOf, Exclusive, Apart;
    var t := sys.sessions[j];
    if Active(t) && t.env.request.Reverse? {
      if OnFile(sys.db, t.env) {
        OnFileForEver(sys, i, a, t.env);
      } else {
        assert Sound(sys.db, t);
        ReadSinceStart(db0, sys.db, t);
        StepKeepsRow(db0, sys, i, a, t.env, t.original.value);
      }
    }
  }

  lemma OwnStaysCurrentOrTaken(sys: System, i: nat, a: Action)
    requires i < |sys.sessions| && Enabled(sys, i, a) && CurrentOrTaken(sys.db, sys.sessions[i])
    ensures CurrentOrTaken(DbAfter(sys, i, a), SessionAfter(sys, i, a))
  {
    hide OnFile, SessionAfter, DbAfter, Enabled;
    SessionKeepsEnv(sys, i, a);
    if Active(SessionAfter(sys, i, a)) && sys.sessions[i].env.request.Reverse? {
      OriginalIsRead(sys, i, a);
    }
  }

  lemma AtomicKeepsOldOrLate(db0: Store, db: Store, f: Env)
    requires OldOrLate(db0, db) && Atomic(f.request) && (f.request.OpenTurn? ==> NotBefore(db0.ledger, f.now))
    ensures OldOrLate(db0, Apply(db, f).store)
  {
    hide NotBefore, Freeze, CashDue;
    var after := Apply(db, f).store;
    forall h | 0 <= h < |after.shifts| && after.shifts[h].status == OPEN
      ensures after.shifts[h] in db0.shifts || NotBefore(db0.ledger, after.shifts[h].openedAt)
    {
      if h < |db.shifts| {
        assert after.shifts[h] == db.shifts[h];
      }
    }
  }

  lemma StepKeepsOldOrLate(db0: Store, sys: System, i: nat, a: Action)
    requires OldOrLate(db0, sys.db) && i < |sys.sessions| && Enabled(sys, i, a)
    requires sys.sessions[i].env.request.OpenTurn? ==> NotBefore(db0.ledger, sys.sessions[i].env.now)
    ensures OldOrLate(db0, DbAfter(sys, i, a))
  {
    hide Apply, NotBefore;
    if a.Begin? && Atomic(sys.sessions[i].env.request) {
      AtomicKeepsOldOrLate(db0, sys.db, sys.sessions[i].env);
    }
  }

  lemma StepKeepsCalm(db0: Store, sys: System, i: nat, a: Action)
    requires Core(sys) && Traceable(sys) && AllMovesCurrent(sys) && Calm(db0, sys)
    requires i < |sys.sessions| && Enabled(sys, i, a)
    requires forall j | 0 <= j < |sys.sessions| && j != i :: !Disturbs(db0, sys.sessions[i].env, sys.sessions[j].env)
    requires sys.sessions[i].env.request.OpenTurn? ==> NotBefore(db0.ledger, sys.sessions[i].env.now)
    ensures Calm(db0, After(sys, i, a))
  {
    hide Core, Traceable, AllMovesCurrent, OldOrLate, Disturbs, Untouched, CurrentOrTaken, SessionAfter, DbAfter,
      Enabled, NotBefore;
    var next := After(sys, i, a);
    SessionKeepsEnv(sys, i, a);
    NobodyDisturbsItself(db0, sys.sessions[i].env);
    StepKeepsOldOrLate(db0, sys, i, a);
    forall j | 0 <= j < |next.sessions| && next.sessions[j].env.request.Reverse?
      ensures Untouched(db0, next.db, next.sessions[j].env)
    {
      StepKeepsUntouched(db0, sys, i, a, sys.sessions[j].env);
    }
    forall j | 0 <= j < |next.sessions| ensures CurrentOrTaken(next.db, next.sessions[j]) {
      if j == i {
        OwnStaysCurrentOrTaken(sys, i, a);
      } else {
        OthersStayCurrentOrTaken(db0, sys, i, a, j);
      }
    }
  }

  /** A session that can commit finds its key free, so its row is as it read it. */
  lemma CalmCommitsCurrent(db0: Store, sys: System, i: nat, a: Action)
    requires Core(sys) && Calm(db0, sys) && Enabled(sys, i, a)
    ensures ReversalCommitsCurrent(sys, i, a)
  {
    hide Current, Fitting, VerdictOf, OnFile, Untouched, OldOrLate, Exclusive, Apart;
    if a.Commit? && sys.sessions[i].env.request.Reverse? && ReadyToCommit(sys.sessions[i]) {
      assert Sound(sys.db, sys.sessions[i]) && CurrentOrTaken(sys.db, sys.sessions[i]);
      CommitClaimsKey(sys.db, sys.sessions[i]);
    }
  }

  lemma StartIsCalm(db: Store, es: seq<Env>)
    ensures Calm(db, Start(db, es))
  {
  }

  lemma {:induction false} UndisturbedStaysCalm(db: Store, es: seq<Env>, steps: seq<Step>)
    requires Fair(db, es) && ClockAhead(db, es) && Undisturbed(db, es) && Allowed(Start(db, es), steps)
    ensures ReversalsCommitCurrent(Start(db, es), steps)
    ensures Calm(db, Reached(Start(db, es), steps))
  {
    hide Core, Explained, Prepared, AllMovesCurrent, WellFormed, ReversalCommitsCurrent, After, Disturbs, Calm,
      Traceable, Enabled, Unique, Linked, Tidy, Owned, Solvent, Semaphore, Sealed, Once;
    if steps == [] {
      StartIsCalm(db, es);
    } else {
      var n := |steps| - 1;
      var sys, i, a := Reached(Start(db, es), steps[..n]), steps[n].session, steps[n].action;
      UndisturbedStaysCalm(db, es, steps[..n]);
      ReachedIsExplained(db, es, steps[..n]);
      ReachedIsTraceable(db, es, steps[..n]);
      ReachedIsCore(db, es, steps[..n]);
      SessionExists(sys, i, a);
      CalmCommitsCurrent(db, sys, i, a);
      assert forall j | 0 <= j < |es| && j != i :: !Disturbs(db, es[i], es[j]);
      StepKeepsCalm(db, sys, i, a);
    }
  }

  /** All interleavings of requests among which no reversal is disturbed are serial, whatever the
      schedule. */
  lemma UndisturbedIsSerial(db: Store, es: seq<Env>, steps: seq<Step>)
    requires Fair(db, es) && ClockAhead(db, es) && Undisturbed(db, es) && Allowed(Start(db, es), steps)
    ensures AlwaysSerial(db, es, steps)
  {
    hide Fair, ClockAhead, Undisturbed, Start, AlwaysSerial, ReversalsCommitCurrent, Calm;
    UndisturbedStaysCalm(db, es, steps);
    CurrentIsAlwaysSerial(db, es, steps);
  }

  // ─── What disturbing sessions break ────────────────────────────────────

  /** A row that was changed is gone. */
  lemma ChangedIsGone(l: seq<Row>, m: seq<Row>, k: nat)
    requires Unique(l) && k < |l| <= |m| && m[k] != l[k]
    requires forall n | 0 <= n < |l| :: m[n].id == l[n].id
    requires forall n | |l| <= n < |m| :: m[n].id != l[k].id
    ensures l[k] !in m
  {
    forall n | 0 <= n < |m| ensures m[n] != l[k] {
      if n < |l| && m[n] == l[k] {
        SameRow(l, n, k);
      }
    }
  }

  /** A reversal that goes on to commit when its row is gone breaks the serial order. */
  lemma StaleIsNotSerial(db: Store, es: seq<Env>, steps: seq<Step>, i: nat, o: Row)
    requires Fair(db, es) && Allowed(Start(db, es), steps) && i < |es|
    requires var sys := Reached(Start(db, es), steps);
             && |sys.sessions| == |es| && AboutToLock(sys.sessions[i], es[i], o) && Fits(sys.db, es[i], o)
             && (forall k | 0 <= k < |es| && k != i :: Quiet(sys.sessions[k])) && o !in sys.db.ledger
    ensures exists more :: Allowed(Start(db, es), more) && !AlwaysSerial(db, es, more)
  {
    hide Fair, Start, AlwaysSerial, Reached, Quiet, Fits, Publish, Overwrite, PlanFits;
    var ready := ReversalGetsReady(Start(db, es), steps, i, es[i], o);
    var more := ready + [Step(i, Commit)];
    OneMoreStep(Start(db, es), ready, i, Commit);
    assert more[..|more| - 1] == ready;
    assert !ReversalCommitsCurrent(Reached(Start(db, es), ready), i, Commit);
    assert !ReversalsCommitCurrent(Start(db, es), more);
    SerializableExactly(db, es, more);
    assert Allowed(Start(db, es), more) && !AlwaysSerial(db, es, more);
  }

  lemma MergedFits(db: Store, f: Env, e: Env, o: Row)
    requires CanMerge(db, f) && e.request.Reverse? && Fits(db, e, o)
    requires 0 <= o.amount && o.customer == f.request.secondary
    ensures Fits(Merged(db, f), e, o)
  {
    hide Unique;
    SameKeysInsert(db.ledger, Merged(db, f).ledger, [ReversalRow(e, o)]);
    assert Int4([ReversalRow(e, o)][0].amount);
  }

  lemma MergeBreaksOrder(db: Store, es: seq<Env>, i: nat, j: nat)
    requires Fair(db, es) && i < |es| && j < |es| && i != j && es[i].request.Reverse? && CanReverse(db, es[i])
    requires es[j].request.Merge? && Disturbs(db, es[j], es[i]) && CanMerge(db, es[j])
    ensures exists steps :: Allowed(Start(db, es), steps) && !AlwaysSerial(db, es, steps)
  {
    hide Plausible, WellFormed, Linked, Owned, Solvent, Semaphore, Sealed, Start, AlwaysSerial, Allowed, Reached,
      Unique, Insertable, IsNew, Quiet, PlanFits, MergePlan;
    var o := FindTx(db.ledger, es[i].tenant, es[i].request.target).value;
    var k := AtIndex(db.ledger, o);
    var steps := MergesBetween(db, es, i, j, o);
    MergedFits(db, es[j], es[i], o);
    ChangedIsGone(db.ledger, Merged(db, es[j]).ledger, k);
    StaleIsNotSerial(db, es, steps, i, o);
  }

  /** A closing that would be served alone. */
  predicate CanClose(db: Store, f: Env) {
    f.request.CloseTurn? && ApplyClose(db, f).reply.ShiftSaved?
  }

  lemma ClosedFits(db: Store, f: Env, e: Env, o: Row)
    requires CanClose(db, f) && e.request.Reverse? && Fits(db, e, o)
    ensures Fits(ApplyClose(db, f).store, e, o)
  {
    hide Insertable, Undo;
    SameKeysInsert(db.ledger, ApplyClose(db, f).store.ledger, [ReversalRow(e, o)]);
  }

  /** The closing freezes the payments that its shift has to account for. */
  lemma ClosingFreezes(db: Store, f: Env, k: nat)
    requires Semaphore(db.tenants, db.shifts) && UniqueShifts(db.shifts) && CanClose(db, f)
    requires k < |db.ledger| && db.ledger[k].tenant == f.tenant && Freezable(db, db.ledger[k])
    ensures |ApplyClose(db, f).store.ledger| == |db.ledger| && ApplyClose(db, f).store.ledger[k] != db.ledger[k]
    ensures forall n | 0 <= n < |db.ledger| :: ApplyClose(db, f).store.ledger[n].id == db.ledger[n].id
  {
    var h :| 0 <= h < |db.shifts| && Awaits(db.shifts[h], db.ledger[k]);
    var found := FindOpenById(db.shifts, f.tenant, db.tenants[f.tenant].activeShift.value).value;
    var n :| 0 <= n < |db.shifts| && db.shifts[n] == found;
    assert n == h;
  }

  lemma ClosingBreaksOrder(db: Store, es: seq<Env>, i: nat, j: nat)
    requires Fair(db, es) && i < |es| && j < |es| && i != j && es[i].request.Reverse? && CanReverse(db, es[i])
    requires es[j].request.CloseTurn? && Disturbs(db, es[j], es[i]) && CanClose(db, es[j])
    ensures exists steps :: Allowed(Start(db, es), steps) && !AlwaysSerial(db, es, steps)
  {
    hide Plausible, WellFormed, Linked, Owned, Solvent, Tidy, Semaphore, Start, AlwaysSerial, Allowed, Reached,
      Unique, Insertable, IsNew, Quiet, ApplyClose, Freezable, Fits, UniqueShifts, Accounted;
    var o := FindTx(db.ledger, es[i].tenant, es[i].request.target).value;
    var k := AtIndex(db.ledger, o);
    var steps := ClosesBetween(db, es, i, j, o);
    ClosedFits(db, es[j], es[i], o);
    ClosingFreezes(db, es[j], k);
    ChangedIsGone(db.ledger, ApplyClose(db, es[j]).store.ledger, k);
    StaleIsNotSerial(db, es, steps, i, o);
  }

  /** A reversal gone through marks its row. */
  lemma OverwriteChanges(db: Store, e: Env, o: Row, k: nat)
    requires e.request.Reverse? && Fits(db, e, o) && k < |db.ledger| && db.ledger[k] == o && !o.reversed
    requires Unique(db.ledger)
    ensures o !in Overwrite(db, e, o).ledger
  {
    var l, m := db.ledger, Overwrite(db, e, o).ledger;
    assert !Clash(l[k], [ReversalRow(e, o)][0]);
    ChangedIsGone(l, m, k);
  }

  lemma RivalBreaksOrder(db: Store, es: seq<Env>, i: nat, j: nat)
    requires Fair(db, es) && i < |es| && j < |es| && i != j && Rivals(es[j], es[i])
    requires Due(db, es[i]) && Due(db, es[j]) && es[i].request.rowId != es[j].request.rowId
    ensures exists steps :: Allowed(Start(db, es), steps) && !AlwaysSerial(db, es, steps)
  {
    hide Plausible, WellFormed, Linked, Owned, Solvent, Tidy, Semaphore, Sealed, Start, AlwaysSerial, Allowed, Reached,
      Unique, Insertable, IsNew, Quiet, Overwrite, Undo;
    var o := FindTx(db.ledger, es[i].tenant, es[i].request.target).value;
    var k := AtIndex(db.ledger, o);
    var read := BothRead(db, es, i, j, o);
    RoomForTwo(db, es[j], es[i], o);
    var steps := ReversalGoesThrough(Start(db, es), read, j, es[j], o);
    OverwriteChanges(db, es[j], o, k);
    StaleIsNotSerial(db, es, steps, i, o);
  }

  // ─── Exactly ───────────────────────────────────────────────────────────

  /** Two requests of which one disturbs the other would each be served alone. For two reversals
      there is room for both, and the server drew different row ids for them. */
  predicate BothDue(db: Store, f: Env, e: Env)
    requires e.request.Reverse?
  {
    && CanReverse(db, e)
    && (f.request.Merge? ==> CanMerge(db, f))
    && (f.request.CloseTurn? ==> CanClose(db, f))
    && (f.request.Reverse? ==> Due(db, e) && Due(db, f) && f.request.rowId != e.request.rowId)
  }

  ghost predicate DisturbersAreDue(db: Store, es: seq<Env>) {
    forall i, j | 0 <= i < |es| && 0 <= j < |es| && i != j && Disturbs(db, es[j], es[i]) :: BothDue(db, es[j], es[i])
  }

  lemma DisturbedIsNotSerial(db: Store, es: seq<Env>, i: nat, j: nat)
    requires Fair(db, es) && i < |es| && j < |es| && i != j && Disturbs(db, es[j], es[i]) && BothDue(db, es[j], es[i])
    ensures exists steps :: Allowed(Start(db, es), steps) && !AlwaysSerial(db, es, steps)
  {
    hide Fair, Start, AlwaysSerial, Allowed, CanReverse, CanMerge, CanClose, Due;
    if es[j].request.Merge? {
      MergeBreaksOrder(db, es, i, j);
    } else if es[j].request.CloseTurn? {
      ClosingBreaksOrder(db, es, i, j);
    } else {
      RivalBreaksOrder(db, es, i, j);
    }
  }

  /** Serial in every interleaving, exactly: whatever the schedule the requests are served as if one
      by one if and only if none of them can change the row of another's reversal. */
  lemma AlwaysSerialExactly(db: Store, es: seq<Env>)
    requires Fair(db, es) && ClockAhead(db, es) && DisturbersAreDue(db, es)
    ensures Undisturbed(db, es) <==> forall steps | Allowed(Start(db, es), steps) :: AlwaysSerial(db, es, steps)
  {
    hide Fair, ClockAhead, Start, AlwaysSerial, Allowed, Disturbs, BothDue;
    if Undisturbed(db, es) {
      forall steps | Allowed(Start(db, es), steps) ensures AlwaysSerial(db, es, steps) {
        UndisturbedIsSerial(db, es, steps);
      }
    } else {
      var i, j :| 0 <= i < |es| && 0 <= j < |es| && i != j && Disturbs(db, es[i], es[j]);
      DisturbedIsNotSerial(db, es, j, i);
    }
  }
}
