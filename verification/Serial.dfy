/** Serializability: whatever the interleaving, the committed tables and every reply are those of
    the committed requests served one after the other, in commit order. */
module Serial {
  import opened Domain
  import opened Rounding
  import opened Ledger
  import opened Engine
  import opened Invariants
  import opened Books
  import opened Sessions

  /** The requests of the listed sessions. */
  function Pick(es: seq<Env>, log: seq<nat>): seq<Env>
    requires forall k | 0 <= k < |log| :: log[k] < |es|
  {
    seq(|log|, k requires 0 <= k < |log| => es[log[k]])
  }

  // ─── A commit is the engine's step ─────────────────────────────────────

  predicate ReadyToCommit(s: Session) {
    && s.phase.Writing? && s.done == |s.plan.rows| && (s.plan.batch.Some? ==> s.recorded) && PlanFits(s.plan)
  }

  /** What publishing the session's writes must amount to. */
  ghost predicate ActsAsApply(db: Store, s: Session) {
    Apply(db, s.env) == Outcome(Publish(db, s), s.plan.reply)
  }

  lemma RewriteIdle(l: seq<Row>, s: Session)
    requires !s.env.request.Reverse? && !s.env.request.Merge?
    ensures Rewrite(l, s) == l
  {
  }

  /** A key whose row is accepted is not in the ledger yet. */
  lemma AcceptedKeyIsNew(l: seq<Row>, rows: seq<Row>, tenant: Uuid, key: Uuid)
    requires Insertable(l, rows) && |rows| >= 1 && rows[0].tenant == tenant && rows[0].key == key
    ensures FindKey(l, tenant, key).None?
  {
    forall k | 0 <= k < |l| ensures !(l[k].tenant == tenant && l[k].key == key) {
      assert !Clash(l[k], rows[0]);
    }
  }

  lemma PostingCommits(db: Store, s: Session)
    requires Sound(db, s) && ReadyToCommit(s) && IsPosting(s.env.request)
    ensures ActsAsApply(db, s)
  {
    hide Insertable;
    var e, c := s.env, s.env.request.customer;
    assert PendingRows(s) == s.plan.rows;
    PlanCarriesKey(s);
    AcceptedKeyIsNew(db.ledger, s.plan.rows, e.tenant, e.request.key);
    RewriteIdle(db.ledger, s);
    assert Order(s)[..1] == [c];
    assert Holds(s, c);
    assert db.customers + map[c := s.plan.saves[c]] == db.customers[c := s.plan.saves[c]];
  }

  lemma SetLimitCommits(db: Store, s: Session)
    requires Sound(db, s) && ReadyToCommit(s) && s.env.request.SetLimit?
    ensures ActsAsApply(db, s)
  {
    var c := s.env.request.customer;
    RewriteIdle(db.ledger, s);
    assert Order(s)[..1] == [c];
    assert Holds(s, c);
    assert db.customers + map[c := s.plan.saves[c]] == db.customers[c := s.plan.saves[c]];
  }

  /** The rows a merge found are still those of the customer it merges away. */
  ghost predicate MovesCurrent(db: Store, s: Session) {
    s.phase.Writing? && s.env.request.Merge? ==> s.moved == RowsToMove(db.ledger, s.env)
  }

  lemma MovedByIdIsMovedByOwner(l: seq<Row>, s: Session)
    requires Unique(l) && s.env.request.Merge? && s.moved == RowsToMove(l, s.env)
    ensures Rewrite(l, s) == MoveRows(l, s.env.tenant, s.env.request.secondary, s.env.request.primary)
    ensures forall i | 0 <= i < |l| ::
      l[i].id in s.moved <==> l[i].tenant == s.env.tenant && l[i].customer == s.env.request.secondary
  {
    forall i | 0 <= i < |l| && l[i].id in s.moved
      ensures l[i].tenant == s.env.tenant && l[i].customer == s.env.request.secondary
    {
      var j :| 0 <= j < |l| && l[j].id == l[i].id && l[j].tenant == s.env.tenant
          && l[j].customer == s.env.request.secondary;
      SameRow(l, i, j);
    }
  }

  lemma MergeCommits(db: Store, s: Session)
    requires Sound(db, s) && ReadyToCommit(s) && s.env.request.Merge?
    requires Unique(db.ledger) && MovesCurrent(db, s)
    ensures ActsAsApply(db, s)
  {
    hide Unique, RowsToMove, Insertable, MoveRows, Rewrite, PostingVerdict;
    var q := s.env.request;
    MovedByIdIsMovedByOwner(db.ledger, s);
    assert Order(s)[..2] == Order(s) == [Min(q.primary, q.secondary), Max(q.primary, q.secondary)];
    assert Holds(s, q.primary) && Holds(s, q.secondary);
    assert db.customers + s.plan.saves
        == db.customers[q.primary := s.plan.saves[q.primary]][q.secondary := s.plan.saves[q.secondary]];
  }

  // ─── Reversals that read a current row ─────────────────────────────────

  /** The row a reversal read is still as it read it. */
  ghost predicate OriginalCurrent(db: Store, s: Session) {
    Active(s) && s.env.request.Reverse? ==> s.original.Some? && s.original.value in db.ledger
  }

  lemma RewriteMarks(l: seq<Row>, s: Session)
    requires Unique(l) && s.env.request.Reverse? && s.original.Some? && s.original.value in l
    ensures Rewrite(l, s) == MarkReversed(l, s.original.value.id)
  {
    var o := AtIndex(l, s.original.value);
    forall i | 0 <= i < |l| && l[i].id == s.original.value.id ensures i == o {
      SameRow(l, i, o);
    }
  }

  lemma FindsOriginal(l: seq<Row>, o: Row)
    requires Unique(l) && o in l
    ensures FindTx(l, o.tenant, o.id) == Some(o)
  {
    var i := AtIndex(l, o);
    var j := AtIndex(l, FindTx(l, o.tenant, o.id).value);
    SameRow(l, i, j);
  }

  lemma ReverseCommits(db: Store, s: Session)
    requires Sound(db, s) && ReadyToCommit(s) && s.env.request.Reverse?
    requires Unique(db.ledger) && OriginalCurrent(db, s)
    ensures ActsAsApply(db, s)
  {
    hide Unique, MarkReversed, Rewrite, PostingVerdict, Undo;
    var e, o := s.env, s.original.value;
    var row := ReversalRow(e, o);
    assert PendingRows(s) == s.plan.rows == [row];
    PlanCarriesKey(s);
    AcceptedKeyIsNew(db.ledger, [row], e.tenant, e.request.key);
    FindsOriginal(db.ledger, o);
    RewriteMarks(db.ledger, s);
    MarkPastEnd(db.ledger, row, o);
    assert Order(s)[..1] == [o.customer];
    assert Holds(s, o.customer);
    assert db.customers + map[o.customer := s.plan.saves[o.customer]]
        == db.customers[o.customer := s.plan.saves[o.customer]];
  }

  lemma MarkPastEnd(l: seq<Row>, row: Row, o: Row)
    requires o in l && Insertable(l, [row])
    ensures MarkReversed(l + [row], o.id) == MarkReversed(l, o.id) + [row]
  {
    var i := AtIndex(l, o);
    assert !Clash(l[i], [row][0]);
  }

  // The batch: what it computes from its copies is what it would compute from the tables.

  lemma {:induction false} BatchFromCopies(e: Env, copies: map<Uuid, Customer>, customers: map<Uuid, Customer>,
                                           rate: Rate, slots: seq<Slot>)
    requires forall i | 0 <= i < |slots| ::
      var c := slots[i].customer; c in copies && c in customers && copies[c] == customers[c]
    ensures InflationRows(e, copies, rate, slots) == InflationRows(e, customers, rate, slots)
    ensures InflationTotal(copies, rate, slots) == InflationTotal(customers, rate, slots)
    ensures DebtorCount(copies, slots) == DebtorCount(customers, slots)
  {
    if slots != [] {
      BatchFromCopies(e, copies, customers, rate, slots[..|slots| - 1]);
    }
  }

  /** The locked rows of a batch are the tenant's customers. */
  lemma BatchHoldsTenant(db: Store, s: Session)
    requires Sound(db, s) && s.phase.Writing? && s.env.request.Inflate?
      && Enumerates(db, s.env.tenant, s.env.request.slots)
    ensures forall c :: c in s.copies <==> Owns(db, s.env.tenant, c)
    ensures forall c | c in s.copies :: s.copies[c] == db.customers[c]
    ensures forall i | 0 <= i < |s.env.request.slots| :: s.env.request.slots[i].customer in s.copies
  {
    var slots := s.env.request.slots;
    assert Held(s) == Order(s);
    forall i | 0 <= i < |slots| ensures slots[i].customer in s.copies {
      assert Order(s)[i] == slots[i].customer;
      assert Holds(s, slots[i].customer);
    }
    forall c | Owns(db, s.env.tenant, c) ensures c in s.copies {
      assert Visits(slots, c);
      var i :| 0 <= i < |slots| && slots[i].customer == c;
    }
  }

  lemma SurchargedAll(customers: map<Uuid, Customer>, copies: map<Uuid, Customer>, tenant: Uuid, rate: Rate)
    requires Solvent(customers)
    requires forall c :: c in copies <==> c in customers && customers[c].tenant == tenant
    requires forall c | c in copies :: copies[c] == customers[c]
    requires forall c | c in SurchargedOnly(copies, rate) :: Int4(SurchargedOnly(copies, rate)[c].balance)
    ensures var after := InflatedCustomers(customers, tenant, rate);
            customers + SurchargedOnly(copies, rate) == after && InflationFits(after)
  {
    var after, saves := InflatedCustomers(customers, tenant, rate), SurchargedOnly(copies, rate);
    var mine := customers + saves;
    forall c | c in customers ensures mine[c] == after[c] && Int4(mine[c].balance) {
      if customers[c].tenant == tenant {
        assert c in copies;
      }
    }
  }

  lemma BatchSaves(db: Store, s: Session)
    requires Sound(db, s) && ReadyToCommit(s) && s.env.request.Inflate? && Solvent(db.customers)
    requires Enumerates(db, s.env.tenant, s.env.request.slots)
    ensures var after := InflatedCustomers(db.customers, s.env.tenant, s.env.request.rate);
            db.customers + s.plan.saves == after && InflationFits(after)
  {
    hide Enumerates, Solvent, InflationRows, Insertable;
    BatchHoldsTenant(db, s);
    assert s.plan.saves == SurchargedOnly(s.copies, s.env.request.rate);
    SurchargedAll(db.customers, s.copies, s.env.tenant, s.env.request.rate);
  }

  lemma InflateCommits(db: Store, s: Session)
    requires Sound(db, s) && ReadyToCommit(s) && s.env.request.Inflate? && Solvent(db.customers)
    requires Enumerates(db, s.env.tenant, s.env.request.slots)
    ensures ActsAsApply(db, s)
  {
    hide Insertable, Solvent, Enumerates, PlanFits, InflationFits;
    var e, q := s.env, s.env.request;
    BatchHoldsTenant(db, s);
    BatchFromCopies(e, s.copies, db.customers, q.rate, q.slots);
    BatchSaves(db, s);
    RewriteIdle(db.ledger, s);
    assert PendingRows(s) == s.plan.rows;
  }

  /** Nothing a session read, under its locks or before them, has changed since. */
  ghost predicate ReadsCurrent(db: Store, s: Session) {
    MovesCurrent(db, s) && OriginalCurrent(db, s)
  }

  /** What a session publishes is what the engine does in one step. */
  lemma CommitIsApply(db: Store, s: Session)
    requires Inv(db) && WellFormed(db, s.env) && ReadsCurrent(db, s)
    requires Sound(db, s) && ReadyToCommit(s)
    ensures ActsAsApply(db, s)
  {
    hide Sound, ReadyToCommit, ActsAsApply, MovesCurrent, OriginalCurrent;
    if s.env.request.Reverse? {
      ReverseCommits(db, s);
    } else if IsPosting(s.env.request) {
      PostingCommits(db, s);
    } else if s.env.request.SetLimit? {
      SetLimitCommits(db, s);
    } else if s.env.request.Merge? {
      MergeCommits(db, s);
    } else {
      OnlyBatchesAreLeft(db, s);
      InflateCommits(db, s);
    }
  }

  lemma OnlyBatchesAreLeft(db: Store, s: Session)
    requires Sound(db, s) && ReadyToCommit(s) && !s.env.request.Reverse?
    requires !IsPosting(s.env.request) && !s.env.request.SetLimit? && !s.env.request.Merge?
    ensures s.env.request.Inflate?
  {
  }

  /** A session that commits in its first statement does what the engine does. */
  lemma BeginIsApply(db: Store, s: Session)
    requires s.phase.Waiting? && Begun(db, s).phase.Committed? && Interleaved(s.env.request)
    ensures Apply(db, s.env).reply == Begun(db, s).reply
    ensures !Atomic(s.env.request) ==> Apply(db, s.env).store == db
  {
    hide Apply, ReplayOf, FindTx;
    if ReplayOf(db, s.env).Some? {
      ReplayIsApply(db, s.env);
    }
  }

  /** A key on file is answered as the engine answers it. */
  lemma ReplayIsApply(db: Store, e: Env)
    requires Validated(e.request) && ReplayOf(db, e).Some?
    ensures Apply(db, e) == Outcome(db, ReplayOf(db, e).value)
  {
    hide Decide, Insertable, InflationRows, InflatedCustomers, FindInGroup;
  }

  // ─── What stays true for the sessions still running ────────────────────

  predicate ApartGroups(e: Env, f: Env) {
    e.request.RegisterMixed? && f.request.RegisterMixed? ==> e.request.groupId != f.request.groupId
  }

  /** The customers stay the same ones, each with its tenant. */
  ghost predicate SameOwners(a: Store, b: Store) {
    && b.customers.Keys == a.customers.Keys
    && forall c | c in a.customers :: b.customers[c].tenant == a.customers[c].tenant
  }

  /** Every payment group was there before, or is the one the request drew. */
  ghost predicate GroupsKnown(a: Store, b: Store, e: Env) {
    forall i | 0 <= i < |b.ledger| && b.ledger[i].group.Some? ::
      || (e.request.RegisterMixed? && b.ledger[i].group.value == e.request.groupId)
      || exists j :: 0 <= j < |a.ledger| && a.ledger[j].group == b.ledger[i].group
  }

  lemma PublishKeepsOwners(db: Store, s: Session)
    requires Sound(db, s) && s.phase.Writing?
    ensures SameOwners(db, Publish(db, s))
  {
    SavesAreHeld(db, s);
    forall c | c in s.plan.saves ensures c in db.customers {
      assert Holds(s, c);
    }
  }

  lemma PlanGroups(s: Session)
    requires OnTrack(s) && s.phase.Writing?
    ensures forall k | 0 <= k < |s.plan.rows| && s.plan.rows[k].group.Some? ::
      s.env.request.RegisterMixed? && s.plan.rows[k].group.value == s.env.request.groupId
  {
    if s.env.request.Inflate? {
      BatchHasNoGroups(s.env, s.copies, s.env.request.rate, s.env.request.slots);
    }
  }

  lemma {:induction false} BatchHasNoGroups(e: Env, customers: map<Uuid, Customer>, rate: Rate, slots: seq<Slot>)
    ensures forall k | 0 <= k < |InflationRows(e, customers, rate, slots)| ::
      InflationRows(e, customers, rate, slots)[k].group.None?
  {
    if slots != [] {
      BatchHasNoGroups(e, customers, rate, slots[..|slots| - 1]);
    }
  }

  lemma PublishKnowsGroups(db: Store, s: Session)
    requires OnTrack(s) && s.phase.Writing?
    ensures GroupsKnown(db, Publish(db, s), s.env)
  {
    PlanGroups(s);
    var after := Publish(db, s).ledger;
    forall i | 0 <= i < |after| && after[i].group.Some?
      ensures || (s.env.request.RegisterMixed? && after[i].group.value == s.env.request.groupId)
              || exists j :: 0 <= j < |db.ledger| && db.ledger[j].group == after[i].group
    {
      if i < |db.ledger| {
        assert after[i] == Rewritten(db.ledger[i], s);
        assert db.ledger[i].group == after[i].group;
      } else {
        assert after[i] == s.plan.rows[i - |db.ledger|];
      }
    }
  }

  /** A request that has not run yet is as well-formed after another one as before. */
  lemma WellFormedStable(a: Store, b: Store, e: Env, f: Env)
    requires SameOwners(a, b) && GroupsKnown(a, b, e) && ApartGroups(e, f)
    requires WellFormed(a, f)
    ensures WellFormed(b, f)
  {
    if f.request.Inflate? {
      assert forall c :: Owns(a, f.tenant, c) <==> Owns(b, f.tenant, c);
    }
  }

  /** What a commit by `s` leaves of another session's merge. */
  lemma MovesStayCurrent(db: Store, s: Session, t: Session)
    requires Unique(db.ledger) && Sound(db, s) && Sound(db, t) && Exclusive(s, t) && s.phase.Writing?
    requires ReadsCurrent(db, s) && MovesCurrent(db, t)
    ensures MovesCurrent(Publish(db, s), t)
  {
    hide Insertable, VerdictOf;
    if t.phase.Writing? && t.env.request.Merge? {
      var l, m, q := db.ledger, Publish(db, s).ledger, t.env.request;
      assert Order(t)[..2] == Order(t);
      assert Holds(t, q.secondary);
      assert !Holds(s, q.secondary);
      forall i | 0 <= i < |l| ensures m[i].customer == q.secondary <==> l[i].customer == q.secondary {
        MergeMovesOwn(db, s, q.secondary, i);
      }
      NewRowsAreHeld(s);
      SameRowsFound(l, m, t.env);
    }
  }

  lemma MergeMovesOwn(db: Store, s: Session, c: Uuid, i: nat)
    requires Unique(db.ledger) && Sound(db, s) && s.phase.Writing? && ReadsCurrent(db, s)
    requires !Holds(s, c) && i < |db.ledger|
    ensures Rewritten(db.ledger[i], s).customer == c <==> db.ledger[i].customer == c
  {
    if s.env.request.Merge? {
      MovedByIdIsMovedByOwner(db.ledger, s);
      assert Order(s)[..2] == Order(s);
      assert Holds(s, s.env.request.primary) && Holds(s, s.env.request.secondary);
    } else if s.env.request.Reverse? {
      RewriteMarks(db.ledger, s);
      assert Rewrite(db.ledger, s)[i] == Rewritten(db.ledger[i], s);
    }
  }

  lemma NewRowsAreHeld(s: Session)
    requires OnTrack(s) && s.phase.Writing?
    ensures forall k | 0 <= k < |s.plan.rows| :: Holds(s, s.plan.rows[k].customer)
  {
    assert Held(s) == Order(s);
    if s.env.request.Inflate? {
      BatchRowsAreVisited(s.env, s.copies, s.env.request.rate, s.env.request.slots);
      forall k | 0 <= k < |s.plan.rows| ensures Holds(s, s.plan.rows[k].customer) {
        assert Visits(s.env.request.slots, s.plan.rows[k].customer);
        var i :| 0 <= i < |s.env.request.slots| && s.env.request.slots[i].customer == s.plan.rows[k].customer;
        assert Order(s)[i] == s.plan.rows[k].customer;
      }
    } else {
      assert forall k | 0 <= k < |s.plan.rows| :: s.plan.rows[k].customer == Order(s)[0];
    }
  }

  lemma {:induction false} BatchRowsAreVisited(e: Env, customers: map<Uuid, Customer>, rate: Rate, slots: seq<Slot>)
    ensures forall k | 0 <= k < |InflationRows(e, customers, rate, slots)| ::
      Visits(slots, InflationRows(e, customers, rate, slots)[k].customer)
  {
    if slots != [] {
      var n := |slots| - 1;
      BatchRowsAreVisited(e, customers, rate, slots[..n]);
      var rows, before := InflationRows(e, customers, rate, slots), InflationRows(e, customers, rate, slots[..n]);
      forall k | 0 <= k < |rows| ensures Visits(slots, rows[k].customer) {
        if k < |before| {
          assert Visits(slots[..n], before[k].customer);
          var i :| 0 <= i < n && slots[..n][i].customer == before[k].customer;
          assert slots[i].customer == rows[k].customer;
        } else {
          assert slots[n].customer == rows[k].customer;
        }
      }
    }
  }

  lemma SameRowsFound(l: seq<Row>, m: seq<Row>, e: Env)
    requires e.request.Merge? && |l| <= |m|
    requires forall i | 0 <= i < |l| ::
      && m[i].id == l[i].id && m[i].tenant == l[i].tenant
      && (m[i].customer == e.request.secondary <==> l[i].customer == e.request.secondary)
    requires forall i | |l| <= i < |m| :: m[i].customer != e.request.secondary
    ensures RowsToMove(m, e) == RowsToMove(l, e)
  {
    forall id | id in RowsToMove(l, e) ensures id in RowsToMove(m, e) {
      var i :| 0 <= i < |l| && l[i].tenant == e.tenant && l[i].customer == e.request.secondary && l[i].id == id;
      assert m[i].id == id;
    }
    forall id | id in RowsToMove(m, e) ensures id in RowsToMove(l, e) {
      var i :| 0 <= i < |m| && m[i].tenant == e.tenant && m[i].customer == e.request.secondary && m[i].id == id;
      assert l[i].id == id;
    }
  }

  // ─── One step ──────────────────────────────────────────────────────────

  lemma RefusedAtomicIsIdle(db: Store, e: Env)
    requires Atomic(e.request) && Apply(db, e).reply.Rejected?
    ensures Apply(db, e).store == db
  {
  }

  /** If the step commits a reversal, the row it read is still as it read it. */
  ghost predicate ReversalCommitsCurrent(sys: System, i: nat, a: Action) {
    i < |sys.sessions| && a.Commit? && sys.sessions[i].env.request.Reverse? && ReadyToCommit(sys.sessions[i]) ==>
      OriginalCurrent(sys.db, sys.sessions[i])
  }

  /** A step either commits, and then it is the engine's whole step, or leaves the tables alone. */
  lemma StepIsApplyOrNothing(sys: System, i: nat, a: Action)
    requires Core(sys) && i < |sys.sessions| && Enabled(sys, i, a)
    requires Inv(sys.db) && WellFormed(sys.db, sys.sessions[i].env) && MovesCurrent(sys.db, sys.sessions[i])
    requires Interleaved(sys.sessions[i].env.request) && ReversalCommitsCurrent(sys, i, a)
    ensures var t, o := SessionAfter(sys, i, a), Apply(sys.db, sys.sessions[i].env);
            if t.phase.Committed? then DbAfter(sys, i, a) == o.store && t.reply == o.reply
            else DbAfter(sys, i, a) == sys.db
  {
    hide Inv, WellFormed, MovesCurrent, OriginalCurrent, Apply, Sound;
    var s := sys.sessions[i];
    if a.Begin? {
      if Begun(sys.db, s).phase.Committed? {
        BeginIsApply(sys.db, s);
      } else if Atomic(s.env.request) {
        assert Apply(sys.db, s.env).reply.Rejected?;
        RefusedAtomicIsIdle(sys.db, s.env);
      }
    } else if a.Commit? && PlanFits(s.plan) {
      OnlyReversalsRead(sys.db, s);
      CommitIsApply(sys.db, s);
    }
  }

  lemma OnlyReversalsRead(db: Store, s: Session)
    ensures !s.env.request.Reverse? ==> OriginalCurrent(db, s)
  {
  }

  lemma AtomicKeepsViews(db: Store, e: Env, t: Session)
    requires Atomic(e.request)
    ensures SameOwners(db, Apply(db, e).store) && GroupsKnown(db, Apply(db, e).store, e)
    ensures MovesCurrent(db, t) ==> MovesCurrent(Apply(db, e).store, t)
  {
    hide Apply;
    AtomicKeepsKeys(db, e);
    var after := Apply(db, e).store;
    forall i | 0 <= i < |after.ledger| && after.ledger[i].group.Some?
      ensures exists j :: 0 <= j < |db.ledger| && db.ledger[j].group == after.ledger[i].group
    {
      assert db.ledger[i].group == after.ledger[i].group;
    }
    if t.phase.Writing? && t.env.request.Merge? {
      SameRowsFound(db.ledger, after.ledger, t.env);
    }
  }

  lemma NothingKnown(db: Store, e: Env)
    ensures SameOwners(db, db) && GroupsKnown(db, db, e)
  {
  }

  /** How a step changes the tables, as far as the other sessions can tell. */
  lemma StepKeepsViews(sys: System, i: nat, a: Action)
    requires Core(sys) && i < |sys.sessions| && Enabled(sys, i, a)
    ensures SameOwners(sys.db, DbAfter(sys, i, a)) && GroupsKnown(sys.db, DbAfter(sys, i, a), sys.sessions[i].env)
  {
    hide Apply, SameOwners, GroupsKnown;
    var s := sys.sessions[i];
    if a.Commit? && PlanFits(s.plan) {
      PublishKeepsOwners(sys.db, s);
      PublishKnowsGroups(sys.db, s);
    } else if a.Begin? && Atomic(s.env.request) {
      AtomicKeepsViews(sys.db, s.env, s);
    } else {
      NothingKnown(sys.db, s.env);
    }
  }

  ghost predicate AllMovesCurrent(sys: System) {
    forall j | 0 <= j < |sys.sessions| :: MovesCurrent(sys.db, sys.sessions[j])
  }

  lemma OthersMovesStayCurrent(sys: System, i: nat, a: Action, j: nat)
    requires Core(sys) && i < |sys.sessions| && Enabled(sys, i, a) && ReversalCommitsCurrent(sys, i, a)
    requires AllMovesCurrent(sys) && Unique(sys.db.ledger) && j < |sys.sessions| && j != i
    ensures MovesCurrent(DbAfter(sys, i, a), sys.sessions[j])
  {
    hide Apply, MovesCurrent, OriginalCurrent, Unique;
    var s, t := sys.sessions[i], sys.sessions[j];
    assert MovesCurrent(sys.db, s) && MovesCurrent(sys.db, t);
    if a.Commit? && PlanFits(s.plan) {
      OnlyReversalsRead(sys.db, s);
      MovesStayCurrent(sys.db, s, t);
    } else if a.Begin? && Atomic(s.env.request) {
      AtomicKeepsViews(sys.db, s.env, t);
    }
  }

  lemma OwnMovesAreCurrent(sys: System, i: nat, a: Action)
    requires i < |sys.sessions| && Enabled(sys, i, a) && MovesCurrent(sys.db, sys.sessions[i])
    ensures MovesCurrent(DbAfter(sys, i, a), SessionAfter(sys, i, a))
  {
    hide Apply, VerdictOf, RowRefused, ReplayOf, LockBusy, RowBusy, BatchBusy;
  }

  lemma StepKeepsMoves(sys: System, i: nat, a: Action)
    requires Core(sys) && i < |sys.sessions| && Enabled(sys, i, a) && AllMovesCurrent(sys)
    requires Unique(sys.db.ledger) && ReversalCommitsCurrent(sys, i, a)
    ensures AllMovesCurrent(After(sys, i, a))
  {
    hide MovesCurrent, Core, Unique, Enabled, SessionAfter, DbAfter, ReversalCommitsCurrent;
    var next := After(sys, i, a);
    forall j | 0 <= j < |next.sessions| ensures MovesCurrent(next.db, next.sessions[j]) {
      if j == i {
        assert MovesCurrent(sys.db, sys.sessions[i]);
        OwnMovesAreCurrent(sys, i, a);
      } else {
        OthersMovesStayCurrent(sys, i, a, j);
      }
    }
  }

  // ─── The log explains the tables ───────────────────────────────────────

  /** The log lists each committed session once. */
  ghost predicate Logged(sys: System) {
    && (forall k | 0 <= k < |sys.log| :: sys.log[k] < |sys.sessions| && sys.sessions[sys.log[k]].phase.Committed?)
    && (forall i | 0 <= i < |sys.sessions| && sys.sessions[i].phase.Committed? :: i in sys.log)
    && (forall k, m | 0 <= k < m < |sys.log| :: sys.log[k] != sys.log[m])
  }

  /** Every reply in the log is the engine's, at its place in the serial order. */
  ghost predicate RepliesAgree(db0: Store, es: seq<Env>, sys: System) {
    forall k | 0 <= k < |sys.log| ::
      && sys.log[k] < |es| && sys.log[k] < |sys.sessions|
      && (forall m | 0 <= m < k :: sys.log[m] < |es|)
      && sys.sessions[sys.log[k]].reply == Apply(Run(db0, Pick(es, sys.log[..k])), es[sys.log[k]]).reply
  }

  ghost predicate Explained(db0: Store, es: seq<Env>, sys: System) {
    && Serving(sys, es) && Logged(sys) && RepliesAgree(db0, es, sys)
    && sys.db == Run(db0, Pick(es, sys.log)) && WellFormedRun(db0, Pick(es, sys.log))
  }

  /** The requests still to come are well-formed against the tables as they are. */
  ghost predicate Prepared(sys: System) {
    forall i | 0 <= i < |sys.sessions| && !Finished(sys.sessions[i]) :: WellFormed(sys.db, sys.sessions[i].env)
  }

  /** Payment groups are drawn apart. */
  ghost predicate Plausible(es: seq<Env>) {
    && AllInterleaved(es)
    && (forall i, j | 0 <= i < |es| && 0 <= j < |es| && i != j :: ApartGroups(es[i], es[j]))
  }

  lemma PickAppend(es: seq<Env>, log: seq<nat>, i: nat)
    requires i < |es| && forall k | 0 <= k < |log| :: log[k] < |es|
    ensures Pick(es, log + [i]) == Pick(es, log) + [es[i]]
    ensures Pick(es, log + [i])[..|log|] == Pick(es, log)
  {
  }

  lemma StepKeepsLogged(sys: System, i: nat, a: Action)
    requires Logged(sys) && i < |sys.sessions| && Enabled(sys, i, a)
    ensures Logged(After(sys, i, a))
  {
    hide Apply, SessionAfter, DbAfter;
    assert !Finished(sys.sessions[i]);
    var next := After(sys, i, a);
    if SessionAfter(sys, i, a).phase.Committed? {
      assert next.log[|sys.log|] == i;
    }
  }

  lemma StepKeepsPrepared(sys: System, i: nat, a: Action, es: seq<Env>)
    requires Core(sys) && Serving(sys, es) && Plausible(es) && Prepared(sys) && i < |sys.sessions| && Enabled(sys, i, a)
    ensures Prepared(After(sys, i, a))
  {
    hide Core, SessionAfter, DbAfter, WellFormed, SameOwners, GroupsKnown;
    assert !Finished(sys.sessions[i]);
    SessionKeepsEnv(sys, i, a);
    StepKeepsViews(sys, i, a);
    var next := After(sys, i, a);
    forall j | 0 <= j < |next.sessions| && !Finished(next.sessions[j])
      ensures WellFormed(next.db, next.sessions[j].env)
    {
      if j == i {
        SelfStaysWellFormed(sys, i, a);
      } else {
        WellFormedStable(sys.db, next.db, sys.sessions[i].env, sys.sessions[j].env);
      }
    }
  }

  /** A session that is not finished by its step left the tables alone. */
  lemma SelfStaysWellFormed(sys: System, i: nat, a: Action)
    requires i < |sys.sessions| && Enabled(sys, i, a) && WellFormed(sys.db, sys.sessions[i].env)
    requires !Finished(SessionAfter(sys, i, a))
    ensures WellFormed(DbAfter(sys, i, a), sys.sessions[i].env)
  {
    hide Apply, WellFormed;
  }

  lemma StepKeepsReplies(db0: Store, es: seq<Env>, sys: System, next: System, i: nat)
    requires Serving(sys, es) && Logged(sys) && RepliesAgree(db0, es, sys) && i < |es|
    requires !sys.sessions[i].phase.Committed? && |next.sessions| == |sys.sessions|
    requires forall j | 0 <= j < |es| && j != i :: next.sessions[j] == sys.sessions[j]
    requires next.log == sys.log || (next.log == sys.log + [i]
             && next.sessions[i].reply == Apply(Run(db0, Pick(es, sys.log)), es[i]).reply)
    ensures RepliesAgree(db0, es, next)
  {
    hide Apply, Run, Pick;
    var n := |sys.log|;
    forall k | 0 <= k < |next.log| ensures
      && next.log[k] < |es| && next.log[k] < |next.sessions|
      && (forall m | 0 <= m < k :: next.log[m] < |es|)
      && next.sessions[next.log[k]].reply == Apply(Run(db0, Pick(es, next.log[..k])), es[next.log[k]]).reply
    {
      if k < n {
        assert next.log[..k] == sys.log[..k];
        assert sys.log[k] != i;
      } else {
        assert next.log[..k] == sys.log;
      }
    }
  }

  lemma StepKeepsExplained(db0: Store, es: seq<Env>, sys: System, i: nat, a: Action)
    requires Inv(db0) && Plausible(es) && Core(sys) && Explained(db0, es, sys) && Prepared(sys) && AllMovesCurrent(sys)
    requires i < |sys.sessions| && Enabled(sys, i, a) && ReversalCommitsCurrent(sys, i, a)
    ensures Explained(db0, es, After(sys, i, a))
  {
    hide Inv, WellFormed, Core, SessionAfter, DbAfter, Apply, MovesCurrent, Logged, RepliesAgree,
      ReversalCommitsCurrent;
    assert !Finished(sys.sessions[i]);
    LogFits(sys);
    var next := After(sys, i, a);
    RunKeepsInv(db0, Pick(es, sys.log));
    StepIsApplyOrNothing(sys, i, a);
    StepKeepsServing(sys, i, a, es);
    StepKeepsLogged(sys, i, a);
    StepKeepsReplies(db0, es, sys, next, i);
    if SessionAfter(sys, i, a).phase.Committed? {
      PickAppend(es, sys.log, i);
    }
  }

  lemma LogFits(sys: System)
    requires Logged(sys)
    ensures forall k | 0 <= k < |sys.log| :: sys.log[k] < |sys.sessions|
  {
  }

  // ─── Every interleaving ────────────────────────────────────────────────

  /** Sane tables, DTOs within bounds, and payment groups drawn apart. */
  ghost predicate Fair(db: Store, es: seq<Env>) {
    Inv(db) && Plausible(es) && forall i | 0 <= i < |es| :: WellFormed(db, es[i])
  }

  /** Every reversal that commits in the interleaving finds the row it read as it read it. */
  ghost predicate ReversalsCommitCurrent(sys: System, steps: seq<Step>)
    requires Allowed(sys, steps)
    decreases |steps|
  {
    steps == [] ||
    (ReversalsCommitCurrent(sys, steps[..|steps| - 1]) &&
     ReversalCommitsCurrent(Reached(sys, steps[..|steps| - 1]), steps[|steps| - 1].session, steps[|steps| - 1].action))
  }

  lemma StartIsExplained(db: Store, es: seq<Env>)
    requires Fair(db, es)
    ensures var sys := Start(db, es); Explained(db, es, sys) && Prepared(sys) && AllMovesCurrent(sys)
  {
    assert Run(db, Pick(es, [])) == db;
  }

  lemma {:induction false} ReachedIsExplained(db: Store, es: seq<Env>, steps: seq<Step>)
    requires Fair(db, es) && Allowed(Start(db, es), steps) && ReversalsCommitCurrent(Start(db, es), steps)
    ensures var sys := Reached(Start(db, es), steps);
            Core(sys) && Explained(db, es, sys) && Prepared(sys) && AllMovesCurrent(sys)
  {
    hide Core, Explained, Prepared, AllMovesCurrent, After, Inv, WellFormed, Once, ReversalCommitsCurrent;
    if steps == [] {
      StartIsCore(db, es);
      StartIsExplained(db, es);
    } else {
      var n := |steps| - 1;
      var sys, i, a := Reached(Start(db, es), steps[..n]), steps[n].session, steps[n].action;
      ReachedIsExplained(db, es, steps[..n]);
      ReachedIsCore(db, es, steps[..n]);
      ExplainedIsSane(db, es, sys);
      assert Interleaved(es[i].request);
      StepKeepsCore(sys, i, a);
      StepKeepsExplained(db, es, sys, i, a);
      StepKeepsPrepared(sys, i, a, es);
      StepKeepsMoves(sys, i, a);
    }
  }

  lemma ExplainedIsSane(db: Store, es: seq<Env>, sys: System)
    requires Inv(db) && Explained(db, es, sys)
    ensures Inv(sys.db) && Unique(sys.db.ledger)
  {
    RunKeepsInv(db, Pick(es, sys.log));
  }

  /** Serializability. Any number of sessions of any kind, interleaved in any way in which each
      committing reversal finds its row as it read it, end in the tables that serving the committed
      requests one by one in commit order gives; every committed session is in that order once and
      got the reply the serial service gives at its place; sessions that rolled back left no trace. */
  lemma Serializable(db: Store, es: seq<Env>, steps: seq<Step>)
    requires Fair(db, es) && Allowed(Start(db, es), steps) && ReversalsCommitCurrent(Start(db, es), steps)
    ensures var sys := Reached(Start(db, es), steps);
            && |sys.sessions| == |es|
            && (forall k | 0 <= k < |sys.log| :: sys.log[k] < |es|)
            && (forall k, m | 0 <= k < m < |sys.log| :: sys.log[k] != sys.log[m])
            && (forall i | 0 <= i < |es| :: sys.sessions[i].phase.Committed? <==> i in sys.log)
            && WellFormedRun(db, Pick(es, sys.log))
            && sys.db == Run(db, Pick(es, sys.log))
            && (forall k | 0 <= k < |sys.log| ::
                  sys.sessions[sys.log[k]].reply == Apply(Run(db, Pick(es, sys.log[..k])), es[sys.log[k]]).reply)
  {
    hide Core, Prepared, AllMovesCurrent, Inv, WellFormed, Apply, Fair, Allowed, Reached, Start,
      ReversalsCommitCurrent;
    ReachedIsExplained(db, es, steps);
  }

  /** Hence the invariants of the tables and the conservation of balances hold in the middle of
      any such interleaving too. */
  lemma InterleavingKeepsBooks(db: Store, es: seq<Env>, steps: seq<Step>, c: Uuid)
    requires Fair(db, es) && Balanced(db)
    requires Allowed(Start(db, es), steps) && ReversalsCommitCurrent(Start(db, es), steps)
    ensures var sys := Reached(Start(db, es), steps);
            && Inv(sys.db)
            && (forall k | 0 <= k < |sys.log| :: sys.log[k] < |es|)
            && 0 <= Swept(db, Pick(es, sys.log))(c)
            && (c in sys.db.customers ==>
                  sys.db.customers[c].balance == Net(sys.db.ledger, sys.db.ledger, c) + Swept(db, Pick(es, sys.log))(c))
  {
    hide Core, Prepared, AllMovesCurrent, WellFormed, Apply, Allowed, Reached, Start, Inv, ReversalsCommitCurrent;
    Serializable(db, es, steps);
    var order := Pick(es, Reached(Start(db, es), steps).log);
    RunKeepsInv(db, order);
    Conservation(db, order, c);
  }

  /** A debt commits only within the limit in force at that moment, on top of the balance of
      that moment, for a customer that is active at that moment. */
  lemma DebtWithinLimit(db: Store, es: seq<Env>, steps: seq<Step>, i: nat)
    requires AllInterleaved(es) && Allowed(Start(db, es), steps)
    requires i < |es| && es[i].request.RegisterDebt?
    requires var sys := Reached(Start(db, es), steps);
             Enabled(sys, i, Commit) && PlanFits(sys.sessions[i].plan)
    ensures var sys, c := Reached(Start(db, es), steps), es[i].request.customer;
            var after := DbAfter(sys, i, Commit);
            && c in sys.db.customers && c in after.customers && sys.db.customers[c].active
            && after.customers[c].balance == sys.db.customers[c].balance + es[i].request.amount
            && after.customers[c].balance <= sys.db.customers[c].limit == after.customers[c].limit
  {
    hide Apply, Allowed, Reached, Start, Fitting;
    ReachedIsCore(db, es, steps);
    var s := Reached(Start(db, es), steps).sessions[i];
    assert Sound(Reached(Start(db, es), steps).db, s);
    assert Order(s)[..1] == [es[i].request.customer];
    assert Holds(s, es[i].request.customer);
  }
}
