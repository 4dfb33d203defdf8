/** Where interleaving does break: a batch that locks out of order can deadlock with a merge, a row
    can be reversed twice, and a merge or a shift closing can spoil a reversal. */
module Anomalies {
  import opened Domain
  import opened Ledger
  import opened Engine
  import opened Invariants
  import opened Sessions
  import opened Serial
  import opened Progress
  import opened Reversals

  lemma OneMoreStep(sys: System, steps: seq<Step>, i: nat, a: Action)
    requires Allowed(sys, steps) && Enabled(Reached(sys, steps), i, a)
    ensures Allowed(sys, steps + [Step(i, a)])
    ensures Reached(sys, steps + [Step(i, a)]) == After(Reached(sys, steps), i, a)
  {
    hide Enabled, After;
    assert (steps + [Step(i, a)])[..|steps|] == steps;
  }

  // ─── Deadlock of an unordered batch ────────────────────────────────────

  /** A merge that holds its first customer, and a batch that has not met it yet. */
  ghost predicate Facing(sys: System, merge: Env, batch: Env, n: nat) {
    && |sys.sessions| == 2
    && sys.sessions[0].env == merge && sys.sessions[0].phase.Locking? && sys.sessions[0].taken == 1
    && sys.sessions[1].env == batch && sys.sessions[1].phase.Locking? && sys.sessions[1].taken == n
  }

  lemma MergeLocksFirst(db: Store, merge: Env, batch: Env) returns (steps: seq<Step>)
    requires merge.request.Merge? && merge.request.primary != merge.request.secondary && batch.request.Inflate?
    requires Owns(db, merge.tenant, Min(merge.request.primary, merge.request.secondary))
    requires (batch.tenant, batch.request.key) !in db.batches
    ensures Allowed(Start(db, [merge, batch]), steps)
    ensures var sys := Reached(Start(db, [merge, batch]), steps); sys.db == db && Facing(sys, merge, batch, 0)
  {
    hide Apply, VerdictOf, Publish, Allowed, Reached;
    var sys := Start(db, [merge, batch]);
    StartIsReached(sys);
    OneMoreStep(sys, [], 0, Begin);
    OneMoreStep(sys, [] + [Step(0, Begin)], 0, Lock);
    OneMoreStep(sys, [] + [Step(0, Begin)] + [Step(0, Lock)], 1, Begin);
    steps := [] + [Step(0, Begin)] + [Step(0, Lock)] + [Step(1, Begin)];
  }

  lemma StartIsReached(sys: System)
    ensures Allowed(sys, []) && Reached(sys, []) == sys
  {
  }

  lemma {:induction false} BatchLocksOn(sys0: System, steps: seq<Step>, merge: Env, batch: Env, n: nat)
    returns (more: seq<Step>)
    requires Allowed(sys0, steps) && merge.request.Merge? && batch.request.Inflate? && n <= |batch.request.slots|
    requires Facing(Reached(sys0, steps), merge, batch, 0)
    requires forall k | 0 <= k < n :: Owns(Reached(sys0, steps).db, batch.tenant, batch.request.slots[k].customer)
    requires forall k | 0 <= k < n ::
      batch.request.slots[k].customer != Min(merge.request.primary, merge.request.secondary)
    ensures Allowed(sys0, more) && Facing(Reached(sys0, more), merge, batch, n)
    ensures Reached(sys0, more).db == Reached(sys0, steps).db
  {
    hide Allowed, Reached, Apply, VerdictOf, Publish;
    if n == 0 {
      more := steps;
    } else {
      var before := BatchLocksOn(sys0, steps, merge, batch, n - 1);
      var sys := Reached(sys0, before);
      assert Order(sys.sessions[1])[n - 1] == batch.request.slots[n - 1].customer;
      assert Held(sys.sessions[0]) == [Min(merge.request.primary, merge.request.secondary)];
      OneMoreStep(sys0, before, 1, Lock);
      more := before + [Step(1, Lock)];
    }
  }

  /** The condition on the batch is exact: as soon as the database returns two customers of the
      tenant one after the other in descending order, a merge of these two can lock each other
      out with the batch. */
  lemma UnorderedBatchDeadlocks(db: Store, batch: Env, now: int, k: nat)
    requires batch.request.Inflate? && k + 1 < |batch.request.slots|
    requires Enumerates(db, batch.tenant, batch.request.slots) && (batch.tenant, batch.request.key) !in db.batches
    requires batch.request.slots[k].customer > batch.request.slots[k + 1].customer
    ensures var slots := batch.request.slots;
            var merge := Env(batch.tenant, now, Merge(slots[k].customer, slots[k + 1].customer));
            exists steps ::
              && Allowed(Start(db, [merge, batch]), steps)
              && Waits(Reached(Start(db, [merge, batch]), steps), 0, 1)
              && Waits(Reached(Start(db, [merge, batch]), steps), 1, 0)
  {
    hide Allowed, Reached, Apply, VerdictOf, Publish, Start;
    var slots := batch.request.slots;
    var merge := Env(batch.tenant, now, Merge(slots[k].customer, slots[k + 1].customer));
    assert Owns(db, batch.tenant, slots[k].customer) && Owns(db, batch.tenant, slots[k + 1].customer);
    var first := MergeLocksFirst(db, merge, batch);
    var steps := BatchLocksOn(Start(db, [merge, batch]), first, merge, batch, k + 1);
    var sys := Reached(Start(db, [merge, batch]), steps);
    assert Order(sys.sessions[1])[..k + 1][k] == slots[k].customer;
    assert Order(sys.sessions[0])[..1] == [slots[k + 1].customer];
    assert Holds(sys.sessions[1], slots[k].customer) && Holds(sys.sessions[0], slots[k + 1].customer);
    assert Waits(sys, 0, 1) && Waits(sys, 1, 0);
  }

  // ─── Reversing a row twice ─────────────────────────────────────────────

  /** The session holds no lock and has nothing uncommitted. */
  predicate Quiet(s: Session) {
    Held(s) == [] && PendingRows(s) == []
  }

  /** A reversal that read its row and is about to lock. */
  ghost predicate AboutToLock(s: Session, e: Env, o: Row) {
    s.env == e && e.request.Reverse? && s.phase.Locking? && s.original == Some(o) && s.taken == 0 && s.copies == map[]
  }

  /** What the reversal of `o` by `e` makes of the tables, reading `o` where it likes. */
  function Overwrite(db: Store, e: Env, o: Row): Store
    requires e.request.Reverse? && o.customer in db.customers
  {
    var c := db.customers[o.customer];
    db.(ledger := seq(|db.ledger|, i requires 0 <= i < |db.ledger| =>
                    if db.ledger[i].id == o.id
                    then db.ledger[i].(customer := o.customer, reversed := true, shift := o.shift) else db.ledger[i])
                  + [ReversalRow(e, o)],
        customers := db.customers[o.customer := c.(balance := Undo(o, c.balance))])
  }

  predicate Fits(db: Store, e: Env, o: Row)
    requires e.request.Reverse?
  {
    && Owns(db, e.tenant, o.customer) && Insertable(db.ledger, [ReversalRow(e, o)])
    && Int4(Undo(o, db.customers[o.customer].balance)) && Int4(db.customers[o.customer].limit)
  }

  /** Left alone from there, it is ready to commit, although the row may have changed meanwhile. */
  lemma ReversalGetsReady(sys0: System, steps: seq<Step>, i: nat, e: Env, o: Row) returns (more: seq<Step>)
    requires Allowed(sys0, steps)
    requires var sys := Reached(sys0, steps);
             && i < |sys.sessions| && AboutToLock(sys.sessions[i], e, o) && Fits(sys.db, e, o)
             && (forall j | 0 <= j < |sys.sessions| && j != i :: Quiet(sys.sessions[j]))
    ensures Allowed(sys0, more)
    ensures var sys, next := Reached(sys0, steps), Reached(sys0, more);
            && next.db == sys.db
            && |next.sessions| == |sys.sessions| && next.sessions == sys.sessions[i := next.sessions[i]]
            && AboutToCommit(sys.db, next.sessions[i], e, o)
  {
    hide Allowed, Reached, Apply, Insertable, Undo, PostingVerdict, FindKey, Replay, Publish;
    var sys := Reached(sys0, steps);
    assert Order(sys.sessions[i]) == [o.customer];
    OneMoreStep(sys0, steps, i, Lock);
    OneMoreStep(sys0, steps + [Step(i, Lock)], i, Choose);
    var b := Reached(sys0, steps + [Step(i, Lock)] + [Step(i, Choose)]);
    assert b.sessions[i].plan.rows == [ReversalRow(e, o)] && b.db == sys.db;
    assert forall j | 0 <= j < |sys.sessions| && j != i :: b.sessions[j] == sys.sessions[j];
    FreeToInsert(b, i, e, o);
    OneMoreStep(sys0, steps + [Step(i, Lock)] + [Step(i, Choose)], i, InsertRow);
    more := steps + [Step(i, Lock)] + [Step(i, Choose)] + [Step(i, InsertRow)];
  }

  /** A reversal that has only its commit left. */
  ghost predicate AboutToCommit(db: Store, s: Session, e: Env, o: Row) {
    && s.env == e && e.request.Reverse? && s.original == Some(o) && o.customer in db.customers
    && ReadyToCommit(s) && s.plan.rows == [ReversalRow(e, o)] && s.plan.batch.None?
    && s.plan.saves
       == map[o.customer := db.customers[o.customer].(balance := Undo(o, db.customers[o.customer].balance))]
  }

  /** Left alone from there, it commits. */
  lemma ReversalGoesThrough(sys0: System, steps: seq<Step>, i: nat, e: Env, o: Row) returns (more: seq<Step>)
    requires Allowed(sys0, steps)
    requires var sys := Reached(sys0, steps);
             && i < |sys.sessions| && AboutToLock(sys.sessions[i], e, o) && Fits(sys.db, e, o)
             && (forall j | 0 <= j < |sys.sessions| && j != i :: Quiet(sys.sessions[j]))
    ensures Allowed(sys0, more)
    ensures var sys, next := Reached(sys0, steps), Reached(sys0, more);
            && next.db == Overwrite(sys.db, e, o)
            && |next.sessions| == |sys.sessions| && next.sessions == sys.sessions[i := next.sessions[i]]
            && next.sessions[i].posted && Quiet(next.sessions[i])
  {
    hide Allowed, Reached, Undo, Publish, Overwrite, PlanFits, Insertable;
    var ready := ReversalGetsReady(sys0, steps, i, e, o);
    OneMoreStep(sys0, ready, i, Commit);
    more := ready + [Step(i, Commit)];
    OverwriteIsPublish(Reached(sys0, ready).db, Reached(sys0, ready).sessions[i], e, o);
  }

  lemma FreeToInsert(sys: System, i: nat, e: Env, o: Row)
    requires i < |sys.sessions| && e.request.Reverse? && Insertable(sys.db.ledger, [ReversalRow(e, o)])
    requires var s := sys.sessions[i];
             s.phase.Writing? && s.done == 0 && s.plan.rows == [ReversalRow(e, o)]
    requires forall j | 0 <= j < |sys.sessions| && j != i :: PendingRows(sys.sessions[j]) == []
    ensures Enabled(sys, i, InsertRow) && !RowRefused(sys.db, sys.sessions[i], ReversalRow(e, o))
  {
    var row := ReversalRow(e, o);
    assert [row][0] == row;
    forall k | 0 <= k < |sys.db.ledger| ensures !Clash(row, sys.db.ledger[k]) {
      assert !Clash(sys.db.ledger[k], [row][0]);
    }
  }

  lemma OverwriteIsPublish(db: Store, s: Session, e: Env, o: Row)
    requires AboutToCommit(db, s, e, o)
    ensures Publish(db, s) == Overwrite(db, e, o)
  {
    assert Rewrite(db.ledger, s) == Overwrite(db, e, o).ledger[..|db.ledger|];
  }

  /** A reversal reads its row before any other session starts. */
  lemma ReadsFirst(db: Store, es: seq<Env>, i: nat, o: Row) returns (steps: seq<Step>)
    requires i < |es| && Unique(db.ledger) && o in db.ledger && !o.reversed && Names(es[i], o) && IsNew(db, es[i])
    ensures Allowed(Start(db, es), steps)
    ensures var sys := Reached(Start(db, es), steps);
            && sys.db == db && |sys.sessions| == |es| && AboutToLock(sys.sessions[i], es[i], o)
            && forall k | 0 <= k < |es| && k != i :: sys.sessions[k] == NewSession(es[k])
  {
    hide Allowed, Reached, Apply, VerdictOf, Publish, Unique, Names, IsNew;
    var sys := Start(db, es);
    StartIsReached(sys);
    ReadsItsRow(db, es[i], o);
    OneMoreStep(sys, [], i, Begin);
    OneMoreStep(sys, [] + [Step(i, Begin)], i, Read);
    steps := [] + [Step(i, Begin)] + [Step(i, Read)];
  }

  /** Both reversals read the row before any session locks. */
  lemma BothRead(db: Store, es: seq<Env>, i: nat, j: nat, o: Row) returns (steps: seq<Step>)
    requires i < |es| && j < |es| && i != j && Unique(db.ledger) && o in db.ledger && !o.reversed
    requires Names(es[i], o) && Names(es[j], o) && IsNew(db, es[i]) && IsNew(db, es[j])
    ensures Allowed(Start(db, es), steps)
    ensures var sys := Reached(Start(db, es), steps);
            && sys.db == db && |sys.sessions| == |es|
            && AboutToLock(sys.sessions[i], es[i], o) && AboutToLock(sys.sessions[j], es[j], o)
            && forall k | 0 <= k < |es| :: Quiet(sys.sessions[k])
  {
    hide Allowed, Reached, Start, Apply, VerdictOf, Publish, Unique, Names, IsNew;
    var sys := Start(db, es);
    var read := ReadsFirst(db, es, i, o);
    ReadsItsRow(db, es[j], o);
    OneMoreStep(sys, read, j, Begin);
    OneMoreStep(sys, read + [Step(j, Begin)], j, Read);
    steps := read + [Step(j, Begin)] + [Step(j, Read)];
  }

  /** The request reverses the row. */
  predicate Names(e: Env, o: Row) {
    e.request.Reverse? && e.tenant == o.tenant && e.request.target == o.id
  }

  predicate IsNew(db: Store, e: Env)
    requires e.request.Reverse?
  {
    FindKey(db.ledger, e.tenant, e.request.key).None?
  }

  lemma ReadsItsRow(db: Store, e: Env, o: Row)
    requires Unique(db.ledger) && o in db.ledger && !o.reversed && Names(e, o) && IsNew(db, e)
    ensures Begun(db, NewSession(e)) == NewSession(e).(phase := Checked)
    ensures Looked(db, NewSession(e).(phase := Checked)) == NewSession(e).(phase := Locking, original := Some(o))
  {
    FindsOriginal(db.ledger, o);
  }

  /** "Reversed at most once" fails under interleaving for every row, in the presence of any other
      sessions: two reversals of it with different keys can both commit, leave two REVERSAL rows
      for it, and undo its amount twice. */
  lemma AnyRowCanBeReversedTwice(db: Store, es: seq<Env>, i: nat, j: nat, o: Row)
    requires i < |es| && j < |es| && i != j && es[i].request.Reverse? && es[j].request.Reverse?
    requires Unique(db.ledger) && o in db.ledger && !o.reversed
    requires Names(es[i], o) && Names(es[j], o) && IsNew(db, es[i]) && IsNew(db, es[j])
    requires Fits(db, es[i], o) && Fits(Overwrite(db, es[i], o), es[j], o)
    ensures exists steps ::
      && Allowed(Start(db, es), steps)
      && var sys := Reached(Start(db, es), steps);
      && i < |sys.sessions| && j < |sys.sessions| && sys.sessions[i].posted && sys.sessions[j].posted
      && sys.db == Overwrite(Overwrite(db, es[i], o), es[j], o)
      && !AtMostOneEach(sys.db.ledger)
  {
    hide Allowed, Reached, Start, Unique, Insertable, AtMostOneEach, Names, IsNew, Quiet;
    var read := BothRead(db, es, i, j, o);
    var sys0 := Start(db, es);
    var once := ReversalGoesThrough(sys0, read, i, es[i], o);
    var twice := ReversalGoesThrough(sys0, once, j, es[j], o);
    TwoReversalsShareTarget(db, es[i], es[j], o);
    assert Allowed(sys0, twice) && Reached(sys0, twice).db == Overwrite(Overwrite(db, es[i], o), es[j], o);
  }

  /** No two REVERSAL rows aim at the same row. */
  ghost predicate AtMostOneEach(l: seq<Row>) {
    forall i, j | 0 <= i < j < |l| :: !SameTarget(l[i], l[j])
  }

  lemma TwoReversalsShareTarget(db: Store, e: Env, f: Env, o: Row)
    requires e.request.Reverse? && f.request.Reverse? && o.customer in db.customers
    requires Fits(Overwrite(db, e, o), f, o)
    ensures !AtMostOneEach(Overwrite(Overwrite(db, e, o), f, o).ledger)
  {
    var l, n := Overwrite(Overwrite(db, e, o), f, o).ledger, |db.ledger|;
    assert SameTarget(l[n], l[n + 1]);
  }

  // ─── Spoiled reversals ─────────────────────────────────────────────────

  /** The row with the given id, after an overwrite, is as the reversal read it but for the mark. */
  lemma OverwrittenRow(db: Store, e: Env, o: Row, k: nat)
    requires e.request.Reverse? && o.customer in db.customers && k < |db.ledger| && db.ledger[k].id == o.id
    ensures k < |Overwrite(db, e, o).ledger|
    ensures Overwrite(db, e, o).ledger[k].customer == o.customer && Overwrite(db, e, o).ledger[k].shift == o.shift
  {
  }

  /** A shift is closed after the reversal has read its row. */
  lemma ClosesBetween(db: Store, es: seq<Env>, i: nat, j: nat, o: Row) returns (steps: seq<Step>)
    requires i < |es| && j < |es| && i != j && Unique(db.ledger) && o in db.ledger && !o.reversed
    requires Names(es[i], o) && IsNew(db, es[i])
    requires es[j].request.CloseTurn? && ApplyClose(db, es[j]).reply.ShiftSaved?
    ensures Allowed(Start(db, es), steps)
    ensures var sys := Reached(Start(db, es), steps);
            && sys.db == ApplyClose(db, es[j]).store && |sys.sessions| == |es|
            && AboutToLock(sys.sessions[i], es[i], o)
            && forall k | 0 <= k < |es| && k != i :: Quiet(sys.sessions[k])
  {
    hide Allowed, Reached, Start, Unique, Names, IsNew, ApplyClose;
    var read := ReadsFirst(db, es, i, o);
    AtomicCommits(db, es[j]);
    OneMoreStep(Start(db, es), read, j, Begin);
    steps := read + [Step(j, Begin)];
    QuietBegin(db, es[j]);
  }

  /** A shift closing between a reversal's read and its commit is spoiled, beside any other
      sessions: the payment that the closed shift has counted is taken out of it again. */
  lemma ClosingSpoilsReversal(db: Store, es: seq<Env>, i: nat, j: nat, k: nat)
    requires i < |es| && j < |es| && i != j && Unique(db.ledger) && k < |db.ledger| && !db.ledger[k].reversed
    requires Names(es[i], db.ledger[k]) && IsNew(db, es[i]) && db.ledger[k].shift.None?
    requires es[j].request.CloseTurn? && ApplyClose(db, es[j]).reply.ShiftSaved?
    requires ApplyClose(db, es[j]).store.ledger[k].shift == Some(ApplyClose(db, es[j]).reply.shift.id)
    requires Fits(ApplyClose(db, es[j]).store, es[i], db.ledger[k])
    ensures exists steps ::
      && Allowed(Start(db, es), steps)
      && var after, closed := Reached(Start(db, es), steps).db, ApplyClose(db, es[j]).store;
      && after == Overwrite(closed, es[i], db.ledger[k]) && k < |after.ledger|
      && closed.ledger[k].shift == Some(ApplyClose(db, es[j]).reply.shift.id) && after.ledger[k].shift.None?
  {
    hide Allowed, Reached, Start, Unique, Insertable, Names, IsNew, ApplyClose, Quiet, Overwrite;
    var sys0, o, closed := Start(db, es), db.ledger[k], ApplyClose(db, es[j]).store;
    var closing := ClosesBetween(db, es, i, j, o);
    var all := ReversalGoesThrough(sys0, closing, i, es[i], o);
    CloseKeepsIds(db, es[j], k);
    OverwrittenRow(closed, es[i], o, k);
    assert Allowed(sys0, all) && Reached(sys0, all).db == Overwrite(closed, es[i], o);
  }

  lemma AtomicCommits(db: Store, f: Env)
    requires f.request.CloseTurn? && ApplyClose(db, f).reply.ShiftSaved?
    ensures Begun(db, NewSession(f)) == Succeed(NewSession(f), ApplyClose(db, f).reply, false)
    ensures Apply(db, f) == ApplyClose(db, f)
  {
  }

  lemma QuietBegin(db: Store, f: Env)
    requires f.request.CloseTurn? && ApplyClose(db, f).reply.ShiftSaved?
    ensures Quiet(Begun(db, NewSession(f)))
  {
    hide ApplyClose;
    AtomicCommits(db, f);
  }

  lemma CloseKeepsIds(db: Store, f: Env, k: nat)
    requires f.request.CloseTurn? && k < |db.ledger|
    ensures k < |ApplyClose(db, f).store.ledger| && ApplyClose(db, f).store.ledger[k].id == db.ledger[k].id
  {
  }

  /** Beside sessions that hold nothing a merge locks both its customers. */
  lemma MergeLocksBoth(sys0: System, steps: seq<Step>, i: nat, f: Env) returns (more: seq<Step>)
    requires Allowed(sys0, steps) && f.request.Merge? && f.request.primary != f.request.secondary
    requires var sys := Reached(sys0, steps);
             && i < |sys.sessions| && sys.sessions[i] == NewSession(f)
             && Owns(sys.db, f.tenant, f.request.primary) && Owns(sys.db, f.tenant, f.request.secondary)
             && (forall j | 0 <= j < |sys.sessions| && j != i :: Quiet(sys.sessions[j]))
    ensures Allowed(sys0, more)
    ensures var sys, next := Reached(sys0, steps), Reached(sys0, more);
            && next.db == sys.db && |next.sessions| == |sys.sessions|
            && next.sessions == sys.sessions[i := next.sessions[i]]
            && next.sessions[i].env == f && next.sessions[i].phase.Locking? && next.sessions[i].taken == 2
            && next.sessions[i].original.None?
            && f.request.primary in next.sessions[i].copies && f.request.secondary in next.sessions[i].copies
            && next.sessions[i].copies[f.request.primary] == sys.db.customers[f.request.primary]
            && next.sessions[i].copies[f.request.secondary] == sys.db.customers[f.request.secondary]
  {
    hide Allowed, Reached, Apply, VerdictOf, Publish, FindKey, Replay;
    var s1 := steps + [Step(i, Begin)];
    OneMoreStep(sys0, steps, i, Begin);
    OneMoreStep(sys0, s1, i, Lock);
    OneMoreStep(sys0, s1 + [Step(i, Lock)], i, Lock);
    more := s1 + [Step(i, Lock)] + [Step(i, Lock)];
  }

  /** A merge left alone commits. */
  lemma MergeGoesThrough(sys0: System, steps: seq<Step>, i: nat, f: Env) returns (more: seq<Step>)
    requires Allowed(sys0, steps) && f.request.Merge? && f.request.primary != f.request.secondary
    requires var sys := Reached(sys0, steps);
             && i < |sys.sessions| && sys.sessions[i] == NewSession(f) && Unique(sys.db.ledger)
             && Owns(sys.db, f.tenant, f.request.primary) && Owns(sys.db, f.tenant, f.request.secondary)
             && PlanFits(MergePlan(sys.db, f))
             && (forall j | 0 <= j < |sys.sessions| && j != i :: Quiet(sys.sessions[j]))
    ensures Allowed(sys0, more)
    ensures var sys, next := Reached(sys0, steps), Reached(sys0, more);
            && next.db == sys.db.(ledger := MoveRows(sys.db.ledger, f.tenant, f.request.secondary, f.request.primary),
                                  customers := sys.db.customers + MergePlan(sys.db, f).saves)
            && |next.sessions| == |sys.sessions| && next.sessions == sys.sessions[i := next.sessions[i]]
            && next.sessions[i].phase.Committed?
  {
    hide Allowed, Reached, Apply, Unique, MoveRows, Rewrite, PlanFits, Absorb, RowsToMove, Quiet, FindKey, Replay;
    var sys := Reached(sys0, steps);
    var locked := MergeLocksBoth(sys0, steps, i, f);
    OneMoreStep(sys0, locked, i, Choose);
    var chosen := Reached(sys0, locked + [Step(i, Choose)]);
    assert chosen.sessions[i].plan == MergePlan(sys.db, f);
    OneMoreStep(sys0, locked + [Step(i, Choose)], i, Commit);
    more := locked + [Step(i, Choose)] + [Step(i, Commit)];
    MovedByIdIsMovedByOwner(sys.db.ledger, chosen.sessions[i]);
    assert Rewrite(sys.db.ledger, chosen.sessions[i]) + [] == Rewrite(sys.db.ledger, chosen.sessions[i]);
  }

  function MergePlan(db: Store, f: Env): Plan
    requires f.request.Merge? && f.request.primary in db.customers && f.request.secondary in db.customers
  {
    var (joined, rest) := Absorb(db.customers[f.request.primary], db.customers[f.request.secondary]);
    Plan([], None, map[f.request.primary := joined, f.request.secondary := rest],
        CustomerSaved(f.request.primary, joined))
  }

  /** A merge that would be served alone. */
  predicate CanMerge(db: Store, f: Env) {
    && f.request.Merge? && f.request.primary != f.request.secondary
    && Owns(db, f.tenant, f.request.primary) && Owns(db, f.tenant, f.request.secondary)
    && PlanFits(MergePlan(db, f))
  }

  /** Customers are merged after the reversal has read its row. */
  lemma MergesBetween(db: Store, es: seq<Env>, i: nat, j: nat, o: Row) returns (steps: seq<Step>)
    requires i < |es| && j < |es| && i != j && Unique(db.ledger) && o in db.ledger && !o.reversed
    requires Names(es[i], o) && IsNew(db, es[i]) && CanMerge(db, es[j])
    ensures Allowed(Start(db, es), steps)
    ensures var sys := Reached(Start(db, es), steps);
            && sys.db == Merged(db, es[j]) && |sys.sessions| == |es| && AboutToLock(sys.sessions[i], es[i], o)
            && forall k | 0 <= k < |es| && k != i :: Quiet(sys.sessions[k])
  {
    hide Allowed, Reached, Start, Unique, IsNew, Names, PlanFits, MergePlan;
    var read := ReadsFirst(db, es, i, o);
    AboutIsQuiet(Reached(Start(db, es), read).sessions[i], es[i], o);
    steps := MergeGoesThrough(Start(db, es), read, j, es[j]);
    CommittedIsQuiet(Reached(Start(db, es), steps).sessions[j]);
  }

  /** A merge between a reversal's read and its commit is spoiled, beside any other sessions: the
      reversed row goes back to the customer merged away, whose balance takes the reversal, while
      the customer that absorbed the debt keeps it. */
  lemma MergeSpoilsReversal(db: Store, es: seq<Env>, i: nat, j: nat, k: nat)
    requires i < |es| && j < |es| && i != j && Unique(db.ledger) && k < |db.ledger| && !db.ledger[k].reversed
    requires Names(es[i], db.ledger[k]) && IsNew(db, es[i]) && CanMerge(db, es[j]) && es[i].tenant == es[j].tenant
    requires db.ledger[k].customer == es[j].request.secondary && Fits(Merged(db, es[j]), es[i], db.ledger[k])
    ensures exists steps ::
      && Allowed(Start(db, es), steps)
      && var merged, p, q := Merged(db, es[j]), es[j].request.primary, es[j].request.secondary;
      && var after := Reached(Start(db, es), steps).db;
      && after == Overwrite(merged, es[i], db.ledger[k]) && k < |after.ledger| && p in after.customers
      && merged.ledger[k].customer == p && after.ledger[k].customer == q
      && after.customers[p].balance == db.customers[p].balance + db.customers[q].balance
  {
    hide Allowed, Reached, Start, Unique, Insertable, IsNew, Quiet, Overwrite, PlanFits;
    var sys0, o, merged := Start(db, es), db.ledger[k], Merged(db, es[j]);
    var merging := MergesBetween(db, es, i, j, o);
    var all := ReversalGoesThrough(sys0, merging, i, es[i], o);
    OverwrittenRow(merged, es[i], o, k);
    OverwriteLeaves(merged, es[i], o, es[j].request.primary);
    assert Allowed(sys0, all) && Reached(sys0, all).db == Overwrite(merged, es[i], o);
  }

  function Merged(db: Store, f: Env): Store
    requires f.request.Merge? && f.request.primary in db.customers && f.request.secondary in db.customers
  {
    db.(ledger := MoveRows(db.ledger, f.tenant, f.request.secondary, f.request.primary),
        customers := db.customers + MergePlan(db, f).saves)
  }

  lemma AboutIsQuiet(s: Session, e: Env, o: Row)
    requires AboutToLock(s, e, o)
    ensures Quiet(s)
  {
  }

  lemma CommittedIsQuiet(s: Session)
    requires s.phase.Committed?
    ensures Quiet(s)
  {
  }

  lemma OverwriteLeaves(db: Store, e: Env, o: Row, c: Uuid)
    requires e.request.Reverse? && o.customer in db.customers && c != o.customer && c in db.customers
    ensures c in Overwrite(db, e, o).customers && Overwrite(db, e, o).customers[c] == db.customers[c]
  {
  }
}
