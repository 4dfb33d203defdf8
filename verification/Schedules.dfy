/** Interleaved sessions refuse as the engine does, and every serial service is one of their
    interleavings. */
module Schedules {
  import opened Domain
  import opened Ledger
  import opened Engine
  import opened Invariants
  import opened Sessions
  import opened Serial
  import opened Progress
  import opened Anomalies

  // ─── Refusals ──────────────────────────────────────────────────────────

  /** The engine refuses the request, with this error, on these tables. */
  ghost predicate Refuses(db: Store, e: Env, error: Error) {
    Apply(db, e) == Outcome(db, Rejected(error))
  }

  lemma BeginRefuses(db: Store, s: Session)
    requires s.phase.Waiting? && Begun(db, s).phase.RolledBack?
    ensures Begun(db, s).reply.Rejected? && Refuses(db, s.env, Begun(db, s).reply.error)
  {
    hide ReplayOf;
    if Validated(s.env.request) {
      RefusedAtomicIsIdle(db, s.env);
    }
  }

  lemma ReadRefuses(db: Store, s: Session)
    requires s.env.request.Reverse? && ReplayOf(db, s.env).None? && Looked(db, s).phase.RolledBack?
    requires s.phase.Checked?
    ensures Looked(db, s).reply.Rejected? && Refuses(db, s.env, Looked(db, s).reply.error)
  {
  }

  /** The locks taken so far are on customers of the tenant. */
  lemma LockedAreOwned(db: Store, s: Session, k: nat)
    requires Sound(db, s) && Active(s) && k < s.taken
    ensures Owns(db, s.env.tenant, Order(s)[k]) && Order(s)[k] in s.copies
    ensures s.copies[Order(s)[k]] == db.customers[Order(s)[k]]
  {
    hide VerdictOf, Fitting;
    assert Held(s)[k] == Order(s)[k];
    assert Holds(s, Order(s)[k]);
  }

  lemma LockRefuses(db: Store, s: Session)
    requires Sound(db, s) && s.phase.Locking? && s.taken < |Order(s)| && Locked(db, s).phase.RolledBack?
    requires ReplayOf(db, s.env).None? && OriginalCurrent(db, s) && Unique(db.ledger) && WellFormed(db, s.env)
    ensures Locked(db, s).reply.Rejected? && Refuses(db, s.env, Locked(db, s).reply.error)
  {
    hide Insertable, Current, Fitting, Decide, MarkReversed, Unique, VerdictOf;
    var q := s.env.request;
    if q.Merge? && s.taken > 0 {
      LockedAreOwned(db, s, 0);
    } else if q.Reverse? {
      FindsOriginal(db.ledger, s.original.value);
    }
  }

  lemma ChooseRefuses(db: Store, s: Session)
    requires Sound(db, s) && s.phase.Locking? && s.taken == |Order(s)| && Chosen(db, s).phase.RolledBack?
    requires ReplayOf(db, s.env).None?
    ensures Chosen(db, s).reply.Rejected? && Refuses(db, s.env, Chosen(db, s).reply.error)
  {
    hide Insertable, Current, Fitting, RowsToMove, InflationRows, InflationTotal, DebtorCount, SurchargedOnly;
    var q := s.env.request;
    LockedAreOwned(db, s, 0);
    if q.Merge? {
      LockedAreOwned(db, s, 1);
    }
  }

  /** The database does not take the plan. */
  predicate Unfit(db: Store, p: Plan) {
    !Insertable(db.ledger, p.rows) || !PlanFits(p)
  }

  lemma PostingPlanRefused(db: Store, s: Session)
    requires Sound(db, s) && s.phase.Writing? && IsPosting(s.env.request) && ReplayOf(db, s.env).None?
    requires Solvent(db.customers) && Unfit(db, s.plan)
    ensures Refuses(db, s.env, DbError)
  {
    hide Insertable, Current, Fitting;
    LockedAreOwned(db, s, 0);
  }

  lemma LimitPlanRefused(db: Store, s: Session)
    requires Sound(db, s) && s.phase.Writing? && s.env.request.SetLimit?
    requires Solvent(db.customers) && Unfit(db, s.plan)
    ensures Refuses(db, s.env, DbError)
  {
    hide Current, Fitting;
    LockedAreOwned(db, s, 0);
  }

  lemma MergePlanRefused(db: Store, s: Session)
    requires Sound(db, s) && s.phase.Writing? && s.env.request.Merge?
    requires Solvent(db.customers) && Unfit(db, s.plan)
    ensures Refuses(db, s.env, DbError)
  {
    hide Current, Fitting;
    LockedAreOwned(db, s, 0);
    LockedAreOwned(db, s, 1);
  }

  lemma ReversePlanRefused(db: Store, s: Session)
    requires Sound(db, s) && s.phase.Writing? && s.env.request.Reverse? && ReplayOf(db, s.env).None?
    requires Solvent(db.customers) && OriginalCurrent(db, s) && Unique(db.ledger) && Unfit(db, s.plan)
    ensures Refuses(db, s.env, DbError)
  {
    hide Insertable, Current, Fitting, MarkReversed, Undo, Unique;
    LockedAreOwned(db, s, 0);
    FindsOriginal(db.ledger, s.original.value);
  }

  lemma BatchPlanRefused(db: Store, s: Session)
    requires Sound(db, s) && s.phase.Writing? && s.env.request.Inflate? && ReplayOf(db, s.env).None?
    requires Enumerates(db, s.env.tenant, s.env.request.slots) && Unfit(db, s.plan)
    requires Solvent(db.customers)
    ensures Refuses(db, s.env, DbError)
  {
    hide Insertable, Current, Fitting, Enumerates, Inflated, InflationRows, InflationTotal, DebtorCount;
    var e, q := s.env, s.env.request;
    BatchHoldsTenant(db, s);
    BatchFromCopies(e, s.copies, db.customers, q.rate, q.slots);
    if Insertable(db.ledger, s.plan.rows) {
      var c :| c in s.plan.saves && !(Int4(s.plan.saves[c].balance) && Int4(s.plan.saves[c].limit));
      SurchargeLeavesLimit(s.copies[c], q.rate);
      assert InflatedCustomers(db.customers, e.tenant, q.rate)[c] == s.plan.saves[c];
    }
  }

  lemma SurchargeLeavesLimit(c: Customer, rate: Rate)
    ensures Inflated(c, rate).limit == c.limit
  {
  }

  lemma PlanRefused(db: Store, s: Session)
    requires Sound(db, s) && s.phase.Writing? && ReplayOf(db, s.env).None? && Unfit(db, s.plan)
    requires Inv(db) && WellFormed(db, s.env) && OriginalCurrent(db, s)
    ensures Refuses(db, s.env, DbError)
  {
    hide Sound, Unfit, ReplayOf, OriginalCurrent, Refuses, Linked, Tidy, Owned, Semaphore, Sealed, Enumerates;
    if IsPosting(s.env.request) {
      PostingPlanRefused(db, s);
    } else if s.env.request.Reverse? {
      ReversePlanRefused(db, s);
    } else if s.env.request.Merge? {
      MergePlanRefused(db, s);
    } else if s.env.request.SetLimit? {
      LimitPlanRefused(db, s);
    } else {
      WritesBatch(db, s);
      BatchPlanRefused(db, s);
    }
  }

  lemma WritesBatch(db: Store, s: Session)
    requires Sound(db, s) && s.phase.Writing? && !IsPosting(s.env.request)
    requires !s.env.request.Reverse? && !s.env.request.Merge? && !s.env.request.SetLimit?
    ensures s.env.request.Inflate?
  {
  }

  /** A refused row makes the whole plan unfit. */
  lemma RefusedRowIsUnfit(db: Store, s: Session)
    requires Sound(db, s) && s.phase.Writing? && s.done < |s.plan.rows| && RowRefused(db, s, s.plan.rows[s.done])
    ensures Unfit(db, s.plan)
  {
    hide VerdictOf, Current, Fitting;
    var rows, row := s.plan.rows, s.plan.rows[s.done];
    if ClashesWith(row, db.ledger) {
      var k :| 0 <= k < |db.ledger| && Clash(row, db.ledger[k]);
      assert Clash(db.ledger[k], rows[s.done]);
    } else if ClashesWith(row, PendingRows(s)) {
      var k :| 0 <= k < |PendingRows(s)| && Clash(row, PendingRows(s)[k]);
      assert Clash(rows[k], rows[s.done]);
    }
  }

  /** A session that is refused, by a check, a lookup, the decision, a unique index or a column, at a
      moment when its key is not on file and what it read is current, is refused as the engine refuses
      its request at that moment, with the same error. */
  lemma RefusalIsTheEngines(sys: System, i: nat, a: Action)
    requires Core(sys) && i < |sys.sessions| && Enabled(sys, i, a) && a != Abort
    requires Inv(sys.db) && WellFormed(sys.db, sys.sessions[i].env) && OriginalCurrent(sys.db, sys.sessions[i])
    requires a.Begin? || ReplayOf(sys.db, sys.sessions[i].env).None?
    requires SessionAfter(sys, i, a).phase.RolledBack?
    ensures SessionAfter(sys, i, a).reply.Rejected?
    ensures Refuses(sys.db, sys.sessions[i].env, SessionAfter(sys, i, a).reply.error)
  {
    hide Current, Fitting, VerdictOf, Refuses, OriginalCurrent, Linked, Tidy, Owned, Solvent, Semaphore, Sealed,
      WellFormed, RowRefused, Unfit, PlanFits, Apply, Unique, FindTx, FindKey, LockBusy, RowBusy,
      BatchBusy, Exclusive, Apart;
    var s := sys.sessions[i];
    assert Sound(sys.db, s);
    match a {
      case Begin => BeginRefuses(sys.db, s);
      case Read => ReadRefuses(sys.db, s);
      case Lock => LockRefuses(sys.db, s);
      case Choose => ChooseRefuses(sys.db, s);
      case InsertRow =>
        RefusedRowIsUnfit(sys.db, s);
        PlanRefused(sys.db, s);
      case InsertBatch => BatchKeyIsFree(sys.db, s);
      case Commit =>
        UnfitPlan(sys.db, s);
        PlanRefused(sys.db, s);
    }
  }

  lemma UnfitPlan(db: Store, s: Session)
    requires !PlanFits(s.plan)
    ensures Unfit(db, s.plan)
  {
  }

  lemma BatchKeyIsFree(db: Store, s: Session)
    requires Sound(db, s) && s.phase.Writing? && s.plan.batch.Some? && ReplayOf(db, s.env).None?
    ensures !Recorded(db, s).phase.RolledBack?
  {
  }

  // ─── A session alone ───────────────────────────────────────────────────

  /** The session's next statement. */
  function NextAction(s: Session): Action {
    match s.phase
    case Waiting => Begin
    case Checked => Read
    case Locking => if s.taken < |Order(s)| then Lock else Choose
    case Writing =>
      if s.done < |s.plan.rows| then InsertRow
      else if s.plan.batch.Some? && !s.recorded then InsertBatch
      else Commit
    case _ => Abort
  }

  /** The other sessions hold nothing and have nothing uncommitted. */
  ghost predicate OthersRest(sys: System, i: nat) {
    forall j | 0 <= j < |sys.sessions| && j != i :: Quiet(sys.sessions[j]) && !PendingBatch(sys.sessions[j])
  }

  lemma NextIsEnabled(sys: System, i: nat)
    requires i < |sys.sessions| && OthersRest(sys, i) && OnTrack(sys.sessions[i]) && !Finished(sys.sessions[i])
    ensures Enabled(sys, i, NextAction(sys.sessions[i]))
  {
    hide VerdictOf;
  }

  /** The session is under way, what it read is current, and its key is not on file. */
  ghost predicate UnderWay(db: Store, s: Session) {
    && !Finished(s) && ReadsCurrent(db, s)
    && (!s.phase.Waiting? ==> ReplayOf(db, s.env).None?)
  }

  /** Left alone a session goes on, or ends as the engine serves its request. */
  lemma NextIsTheEngines(sys: System, i: nat)
    requires Core(sys) && i < |sys.sessions| && OthersRest(sys, i) && UnderWay(sys.db, sys.sessions[i])
    requires Inv(sys.db) && WellFormed(sys.db, sys.sessions[i].env) && Interleaved(sys.sessions[i].env.request)
    ensures var s := sys.sessions[i];
            var a := NextAction(s);
            && Enabled(sys, i, a)
            && var t, o := SessionAfter(sys, i, a), Apply(sys.db, s.env);
            if Finished(t) then DbAfter(sys, i, a) == o.store && t.reply == o.reply
            else DbAfter(sys, i, a) == sys.db && UnderWay(sys.db, t)
  {
    hide Inv, WellFormed, Apply, Current, Fitting, Exclusive, Apart, OthersRest, SessionAfter, DbAfter, Enabled,
      ReadsCurrent, OriginalCurrent, MovesCurrent, ReplayOf, OnTrack, Order, PlanFits;
    var s := sys.sessions[i];
    var a := NextAction(s);
    assert Sound(sys.db, s);
    NextIsEnabled(sys, i);
    var t := SessionAfter(sys, i, a);
    ReadsAreCurrent(sys, i, a);
    StepIsApplyOrNothing(sys, i, a);
    if t.phase.RolledBack? {
      RefusalIsTheEngines(sys, i, a);
    } else if !Finished(t) {
      StaysUnderWay(sys, i, a);
    }
  }

  lemma ReadsAreCurrent(sys: System, i: nat, a: Action)
    requires i < |sys.sessions| && ReadsCurrent(sys.db, sys.sessions[i])
    ensures ReversalCommitsCurrent(sys, i, a)
    ensures MovesCurrent(sys.db, sys.sessions[i]) && OriginalCurrent(sys.db, sys.sessions[i])
  {
  }

  /** A step that does not end its session leaves the tables alone and is taken past the key check. */
  lemma UnfinishedIsIdle(sys: System, i: nat, a: Action)
    requires i < |sys.sessions| && Enabled(sys, i, a) && !Finished(SessionAfter(sys, i, a))
    ensures DbAfter(sys, i, a) == sys.db
    ensures if a.Begin? then ReplayOf(sys.db, sys.sessions[i].env).None? else !sys.sessions[i].phase.Waiting?
  {
    hide Apply, VerdictOf, RowRefused, ReplayOf, LockBusy, RowBusy, BatchBusy, RowsToMove, FindTx, Order, PlanFits,
      Publish;
  }

  lemma StaysUnderWay(sys: System, i: nat, a: Action)
    requires i < |sys.sessions| && Enabled(sys, i, a) && UnderWay(sys.db, sys.sessions[i])
    requires !Finished(SessionAfter(sys, i, a))
    ensures UnderWay(sys.db, SessionAfter(sys, i, a))
  {
    hide SessionAfter, DbAfter, Enabled, ReplayOf, Finished, MovesCurrent;
    var t := SessionAfter(sys, i, a);
    SessionKeepsEnv(sys, i, a);
    UnfinishedIsIdle(sys, i, a);
    OwnMovesAreCurrent(sys, i, a);
    if Active(t) && t.env.request.Reverse? {
      OriginalIsRead(sys, i, a);
    }
  }

  /** Left alone a session ends, and has been served as by the engine. */
  lemma {:induction false} LoneRun(db: Store, es: seq<Env>, steps: seq<Step>, i: nat) returns (more: seq<Step>)
    requires AllInterleaved(es) && Allowed(Start(db, es), steps) && i < |es|
    requires var sys := Reached(Start(db, es), steps);
             && i < |sys.sessions| && OthersRest(sys, i) && UnderWay(sys.db, sys.sessions[i])
             && Inv(sys.db) && WellFormed(sys.db, es[i])
    ensures Allowed(Start(db, es), more)
    ensures var sys, next := Reached(Start(db, es), steps), Reached(Start(db, es), more);
            && |next.sessions| == |sys.sessions| && next.sessions == sys.sessions[i := next.sessions[i]]
            && Finished(next.sessions[i])
            && next.db == Apply(sys.db, es[i]).store && next.sessions[i].reply == Apply(sys.db, es[i]).reply
    decreases var sys := Reached(Start(db, es), steps); Work(sys.sessions[i])
  {
    hide Allowed, Reached, Start, Inv, WellFormed, Apply, Core, Once, UnderWay, OthersRest, Enabled, SessionAfter,
      DbAfter, Work, Finished, NextAction;
    ReachedIsCore(db, es, steps);
    var sys := Reached(Start(db, es), steps);
    var a := NextAction(sys.sessions[i]);
    assert Interleaved(es[i].request);
    NextIsTheEngines(sys, i);
    OneMoreStep(Start(db, es), steps, i, a);
    var on := steps + [Step(i, a)];
    ReachedIsCore(db, es, on);
    if Finished(SessionAfter(sys, i, a)) {
      more := on;
    } else {
      StepWorks(sys, i, a);
      WorkIsNaturalIn(sys, i);
      OthersStillRest(sys, Reached(Start(db, es), on), i);
      more := LoneRun(db, es, on, i);
    }
  }

  lemma WorkIsNaturalIn(sys: System, i: nat)
    requires Core(sys) && i < |sys.sessions|
    ensures Work(sys.sessions[i]) >= 0
  {
    hide Work, OnTrack, Current, Fitting, Exclusive, Apart;
    assert Sound(sys.db, sys.sessions[i]);
    WorkIsNatural(sys.sessions[i]);
  }

  lemma OthersStillRest(sys: System, next: System, i: nat)
    requires i < |sys.sessions| && OthersRest(sys, i)
    requires |next.sessions| == |sys.sessions| && next.sessions == sys.sessions[i := next.sessions[i]]
    ensures OthersRest(next, i)
  {
    hide Quiet, PendingBatch;
  }

  // ─── One session after the other ───────────────────────────────────────

  /** The first `n` requests are served, in order, and no other has begun. */
  ghost predicate ServedUpTo(db: Store, es: seq<Env>, sys: System, n: nat)
    requires n <= |es|
  {
    && |sys.sessions| == |es| && sys.db == Run(db, es[..n])
    && (forall k | 0 <= k < n ::
          Finished(sys.sessions[k]) && sys.sessions[k].reply == Apply(Run(db, es[..k]), es[k]).reply)
    && (forall k | n <= k < |es| :: sys.sessions[k] == NewSession(es[k]))
  }

  lemma {:induction false} OneByOne(db: Store, es: seq<Env>, n: nat) returns (steps: seq<Step>)
    requires Inv(db) && AllInterleaved(es) && n <= |es| && WellFormedRun(db, es[..n])
    ensures Allowed(Start(db, es), steps) && ServedUpTo(db, es, Reached(Start(db, es), steps), n)
  {
    hide Allowed, Reached, Inv, WellFormed, Apply, Finished, Start, UnderWay, OthersRest;
    if n == 0 {
      steps := [];
      StartIsReached(Start(db, es));
      NobodyServed(db, es);
    } else {
      assert es[..n][..n - 1] == es[..n - 1];
      var before := OneByOne(db, es, n - 1);
      var sys := Reached(Start(db, es), before);
      RunKeepsInv(db, es[..n - 1]);
      NextIsAlone(db, es, sys, n - 1);
      steps := LoneRun(db, es, before, n - 1);
    }
  }

  lemma NobodyServed(db: Store, es: seq<Env>)
    ensures ServedUpTo(db, es, Start(db, es), 0)
  {
  }

  lemma NextIsAlone(db: Store, es: seq<Env>, sys: System, n: nat)
    requires n < |es| && ServedUpTo(db, es, sys, n)
    ensures OthersRest(sys, n) && UnderWay(sys.db, sys.sessions[n])
  {
    forall j | 0 <= j < |sys.sessions| && j != n ensures Quiet(sys.sessions[j]) && !PendingBatch(sys.sessions[j]) {
      if j < n {
        assert Finished(sys.sessions[j]);
      }
    }
  }

  /** Every serial service is an interleaving: the sessions can be scheduled so that each request is
      answered, and the tables are left, exactly as the engine serves them one by one, refusals
      included. */
  lemma SerialIsInterleaving(db: Store, es: seq<Env>)
    requires Inv(db) && AllInterleaved(es) && WellFormedRun(db, es)
    ensures exists steps ::
      && Allowed(Start(db, es), steps)
      && var sys := Reached(Start(db, es), steps);
      && |sys.sessions| == |es| && sys.db == Run(db, es)
      && forall k | 0 <= k < |es| ::
           Finished(sys.sessions[k]) && sys.sessions[k].reply == Apply(Run(db, es[..k]), es[k]).reply
  {
    hide Allowed, Reached, Inv, WellFormed, Apply, Finished, Start, Run;
    assert es[..|es|] == es;
    var steps := OneByOne(db, es, |es|);
    assert Allowed(Start(db, es), steps) && ServedUpTo(db, es, Reached(Start(db, es), steps), |es|);
  }

  // ─── Retries in traffic ────────────────────────────────────────────────

  /** A retry whose original has committed is answered in its first statements, whatever else is going
      on: it succeeds with the row, or the figures, on file under its key and changes nothing. */
  lemma RetryIsAnsweredAtOnce(sys: System, i: nat)
    requires i < |sys.sessions| && Enabled(sys, i, Begin) && OnFile(sys.db, sys.sessions[i].env)
    requires Validated(sys.sessions[i].env.request)
    requires HasLedgerKey(sys.sessions[i].env.request) || sys.sessions[i].env.request.Inflate?
    ensures var e, t := sys.sessions[i].env, SessionAfter(sys, i, Begin);
            && t.phase.Committed? && !t.posted && DbAfter(sys, i, Begin) == sys.db
            && (if e.request.Inflate? then
                  (e.tenant, e.request.key) in sys.db.batches
                  && t.reply == BatchApplied(sys.db.batches[(e.tenant, e.request.key)].affected,
                                             sys.db.batches[(e.tenant, e.request.key)].total)
                else e.request.RegisterMixed? ||
                     (t.reply.Posted? && t.reply.row in sys.db.ledger
                      && t.reply.row.tenant == e.tenant && t.reply.row.key == e.request.key))
  {
    hide Apply;
  }
}
