/** Reversed at most once: exactly which concurrent requests keep it. */
module ReversedOnce {
  import opened Domain
  import opened Ledger
  import opened Engine
  import opened Invariants
  import opened Sessions
  import opened Serial
  import opened Reversals
  import opened Anomalies

  /** Two reversals of the same row under different keys. */
  predicate Rivals(e: Env, f: Env) {
    && e.request.Reverse? && f.request.Reverse? && e.tenant == f.tenant
    && e.request.target == f.request.target && e.request.key != f.request.key
  }

  ghost predicate NoRivals(es: seq<Env>) {
    forall i, j | 0 <= i < |es| && 0 <= j < |es| && i != j :: !Rivals(es[i], es[j])
  }

  // ─── What the ledger keeps ─────────────────────────────────────────────

  predicate Aims(r: Row, id: Uuid) {
    r.kind == REVERSAL && r.reverses == Some(id)
  }

  ghost predicate NotAimedAt(l: seq<Row>, id: Uuid) {
    forall k | 0 <= k < |l| :: !Aims(l[k], id)
  }

  ghost predicate IsMarked(l: seq<Row>, id: Uuid) {
    exists k :: 0 <= k < |l| && l[k].id == id && l[k].reversed
  }

  ghost predicate TargetsMarked(l: seq<Row>) {
    forall v | 0 <= v < |l| && l[v].kind == REVERSAL :: l[v].reverses.Some? && IsMarked(l, l[v].reverses.value)
  }

  /** No row is reversed twice, and every reversed row is marked. */
  ghost predicate OnceReversed(l: seq<Row>) {
    AtMostOneEach(l) && TargetsMarked(l)
  }

  /** Rows stay, with what they record, and marks stay. */
  ghost predicate Persists(l: seq<Row>, m: seq<Row>) {
    && |l| <= |m|
    && forall k | 0 <= k < |l| :: SameEntry(l[k], m[k]) && (l[k].reversed ==> m[k].reversed)
  }

  lemma MarksPersist(l: seq<Row>, m: seq<Row>, id: Uuid)
    requires Persists(l, m) && IsMarked(l, id)
    ensures IsMarked(m, id)
  {
    var k :| 0 <= k < |l| && l[k].id == id && l[k].reversed;
    assert m[k].id == id && m[k].reversed;
  }

  lemma AimsPersist(l: seq<Row>, m: seq<Row>, id: Uuid)
    requires Persists(l, m) && NotAimedAt(l, id)
    requires forall k | |l| <= k < |m| :: !Aims(m[k], id)
    ensures NotAimedAt(m, id)
  {
    forall k | 0 <= k < |m| ensures !Aims(m[k], id) {
      if k < |l| {
        assert !Aims(l[k], id) && SameEntry(l[k], m[k]);
      }
    }
  }

  /** Adding rows that reverse nothing keeps every row reversed at most once. */
  lemma OthersKeepOnce(l: seq<Row>, m: seq<Row>)
    requires OnceReversed(l) && Persists(l, m)
    requires forall k | |l| <= k < |m| :: m[k].kind != REVERSAL
    ensures OnceReversed(m)
  {
    forall i, j | 0 <= i < j < |m| ensures !SameTarget(m[i], m[j]) {
      if j < |l| {
        assert !SameTarget(l[i], l[j]) && SameEntry(l[i], m[i]) && SameEntry(l[j], m[j]);
      }
    }
    forall v | 0 <= v < |m| && m[v].kind == REVERSAL ensures m[v].reverses.Some? && IsMarked(m, m[v].reverses.value) {
      assert SameEntry(l[v], m[v]);
      MarksPersist(l, m, l[v].reverses.value);
    }
  }

  /** So does adding the first reversal of a row and marking the row. */
  lemma FirstReversalKeepsOnce(l: seq<Row>, m: seq<Row>, id: Uuid)
    requires OnceReversed(l) && Persists(l, m) && |m| == |l| + 1
    requires Aims(m[|l|], id) && NotAimedAt(l, id) && IsMarked(m, id)
    ensures OnceReversed(m)
  {
    forall i, j | 0 <= i < j < |m| ensures !SameTarget(m[i], m[j]) {
      assert SameEntry(l[i], m[i]);
      if j < |l| {
        assert !SameTarget(l[i], l[j]) && SameEntry(l[j], m[j]);
      } else {
        assert !Aims(l[i], id);
      }
    }
    forall v | 0 <= v < |m| && m[v].kind == REVERSAL ensures m[v].reverses.Some? && IsMarked(m, m[v].reverses.value) {
      if v < |l| {
        assert SameEntry(l[v], m[v]);
        MarksPersist(l, m, l[v].reverses.value);
      }
    }
  }

  // ─── What running reversals keep ───────────────────────────────────────

  /** A reversal that is under way is the first of its row, or its key is taken. */
  ghost predicate FirstOrTaken(db: Store, s: Session) {
    Active(s) && s.env.request.Reverse? ==>
      s.original.Some? && (OnFile(db, s.env) || NotAimedAt(db.ledger, s.original.value.id))
  }

  ghost predicate AllFirstOrTaken(sys: System) {
    forall i | 0 <= i < |sys.sessions| :: FirstOrTaken(sys.db, sys.sessions[i])
  }

  lemma StepPersists(sys: System, i: nat, a: Action)
    requires Core(sys) && i < |sys.sessions| && Enabled(sys, i, a)
    ensures Persists(sys.db.ledger, DbAfter(sys, i, a).ledger)
  {
    hide Apply;
    StepKeepsEntries(sys, i, a);
    if a.Begin? && Atomic(sys.sessions[i].env.request) {
      AtomicKeepsKeys(sys.db, sys.sessions[i].env);
    }
  }

  lemma {:induction false} BatchReversesNothing(e: Env, customers: map<Uuid, Customer>, rate: Rate, slots: seq<Slot>)
    ensures forall k | 0 <= k < |InflationRows(e, customers, rate, slots)| ::
      InflationRows(e, customers, rate, slots)[k].kind != REVERSAL
  {
    if slots != [] {
      BatchReversesNothing(e, customers, rate, slots[..|slots| - 1]);
    }
  }

  lemma PlanReversesNothing(s: Session)
    requires OnTrack(s) && s.phase.Writing? && !s.env.request.Reverse?
    ensures forall k | 0 <= k < |s.plan.rows| :: s.plan.rows[k].kind != REVERSAL
  {
    if s.env.request.Inflate? {
      BatchReversesNothing(s.env, s.copies, s.env.request.rate, s.env.request.slots);
    }
  }

  ghost predicate CommitsReversal(sys: System, i: nat, a: Action) {
    i < |sys.sessions| && a.Commit? && sys.sessions[i].env.request.Reverse? && PlanFits(sys.sessions[i].plan)
  }

  /** Only the commit of a reversal adds a REVERSAL row. */
  lemma OtherStepsReverseNothing(sys: System, i: nat, a: Action)
    requires Core(sys) && i < |sys.sessions| && Enabled(sys, i, a) && !CommitsReversal(sys, i, a)
    ensures var l, m := sys.db.ledger, DbAfter(sys, i, a).ledger;
            |l| <= |m| && forall k | |l| <= k < |m| :: m[k].kind != REVERSAL
  {
    hide Apply, VerdictOf, Current, Fitting;
    var s := sys.sessions[i];
    if a.Begin? && Atomic(s.env.request) {
      AtomicKeepsKeys(sys.db, s.env);
    } else if a.Commit? && PlanFits(s.plan) {
      assert Sound(sys.db, s);
      PlanReversesNothing(s);
    }
  }

  /** The commit of a reversal adds one, for the row it read, and marks that row. */
  lemma ReversalAddsOne(sys: System, i: nat)
    requires Core(sys) && i < |sys.sessions| && Enabled(sys, i, Commit) && CommitsReversal(sys, i, Commit)
    requires OriginalKept(sys.db, sys.sessions[i])
    ensures sys.sessions[i].original.Some?
    ensures var l, m, id := sys.db.ledger, DbAfter(sys, i, Commit).ledger, sys.sessions[i].original.value.id;
            |m| == |l| + 1 && Aims(m[|l|], id) && IsMarked(m, id)
  {
    hide Apply, Current, Fitting;
    var s, l, m := sys.sessions[i], sys.db.ledger, DbAfter(sys, i, Commit).ledger;
    assert Sound(sys.db, s);
    var k :| 0 <= k < |l| && SameEntry(s.original.value, l[k]);
    assert m[k] == Rewritten(l[k], s);
  }

  lemma StepKeepsOnce(sys: System, i: nat, a: Action)
    requires Core(sys) && Traceable(sys) && i < |sys.sessions| && Enabled(sys, i, a)
    requires OnceReversed(sys.db.ledger) && AllFirstOrTaken(sys)
    ensures OnceReversed(DbAfter(sys, i, a).ledger)
  {
    hide Sound, DbAfter, OnceReversed, Persists, Unique, SameEntry, OnFile, NotAimedAt, IsMarked, Aims, Publish;
    StepPersists(sys, i, a);
    if CommitsReversal(sys, i, a) {
      var s := sys.sessions[i];
      assert Sound(sys.db, s) && FirstOrTaken(sys.db, s) && OriginalKept(sys.db, s);
      CommitClaimsKey(sys.db, s);
      ReversalAddsOne(sys, i);
      FirstReversalKeepsOnce(sys.db.ledger, DbAfter(sys, i, a).ledger, s.original.value.id);
    } else {
      OtherStepsReverseNothing(sys, i, a);
      OthersKeepOnce(sys.db.ledger, DbAfter(sys, i, a).ledger);
    }
  }

  /** Two running reversals that read the same row are of one tenant and name it. */
  lemma SameRowSameTarget(db: Store, s: Session, t: Session)
    requires OnTrack(s) && OnTrack(t) && OriginalKept(db, s) && OriginalKept(db, t) && Unique(db.ledger)
    requires Active(s) && Active(t) && s.env.request.Reverse? && t.env.request.Reverse?
    requires s.original.value.id == t.original.value.id
    ensures s.env.tenant == t.env.tenant && s.env.request.target == t.env.request.target
  {
    var l := db.ledger;
    var k :| 0 <= k < |l| && SameEntry(s.original.value, l[k]);
    var m :| 0 <= m < |l| && SameEntry(t.original.value, l[m]);
    SameRow(l, k, m);
  }

  lemma CommitLeavesOthersFirst(sys: System, i: nat, j: nat)
    requires Core(sys) && Traceable(sys) && i < |sys.sessions| && j < |sys.sessions| && i != j
    requires Enabled(sys, i, Commit) && CommitsReversal(sys, i, Commit)
    requires FirstOrTaken(sys.db, sys.sessions[j]) && !Rivals(sys.sessions[i].env, sys.sessions[j].env)
    ensures FirstOrTaken(DbAfter(sys, i, Commit), sys.sessions[j])
  {
    hide Apply, Current, Fitting, VerdictOf, OnFile, NotAimedAt, SameEntry, Unique, IsMarked, Persists, Aims;
    var s, t, db' := sys.sessions[i], sys.sessions[j], DbAfter(sys, i, Commit);
    if Active(t) && t.env.request.Reverse? {
      assert Sound(sys.db, s) && Sound(sys.db, t) && OriginalKept(sys.db, s) && OriginalKept(sys.db, t);
      StepPersists(sys, i, Commit);
      ReversalAddsOne(sys, i);
      if OnFile(sys.db, t.env) {
        OnFileForEver(sys, i, Commit, t.env);
      } else if t.original.value.id == s.original.value.id {
        SameRowSameTarget(sys.db, s, t);
        CommitClaimsKey(sys.db, s);
        SameKeySameFile(db', s.env, t.env);
      } else {
        AimsElsewhere(db'.ledger[|sys.db.ledger|], s.original.value.id, t.original.value.id);
        AimsPersist(sys.db.ledger, db'.ledger, t.original.value.id);
      }
    }
  }

  lemma AimsElsewhere(r: Row, a: Uuid, b: Uuid)
    requires Aims(r, a) && a != b
    ensures !Aims(r, b)
  {
  }

  lemma OthersStayFirst(sys: System, i: nat, a: Action, j: nat)
    requires Core(sys) && Traceable(sys) && i < |sys.sessions| && j < |sys.sessions| && i != j && Enabled(sys, i, a)
    requires FirstOrTaken(sys.db, sys.sessions[j]) && !Rivals(sys.sessions[i].env, sys.sessions[j].env)
    ensures FirstOrTaken(DbAfter(sys, i, a), sys.sessions[j])
  {
    hide Core, Traceable, Enabled, DbAfter, OnFile, NotAimedAt, Persists, Rivals;
    var t := sys.sessions[j];
    if CommitsReversal(sys, i, a) {
      CommitLeavesOthersFirst(sys, i, j);
    } else if Active(t) && t.env.request.Reverse? {
      StepPersists(sys, i, a);
      OtherStepsReverseNothing(sys, i, a);
      if OnFile(sys.db, t.env) {
        OnFileForEver(sys, i, a, t.env);
      } else {
        AimsPersist(sys.db.ledger, DbAfter(sys, i, a).ledger, t.original.value.id);
      }
    }
  }

  /** An unmarked row is the target of no reversal. */
  lemma UnmarkedIsNotAimedAt(l: seq<Row>, r: Row)
    requires TargetsMarked(l) && Unique(l) && r in l && !r.reversed
    ensures NotAimedAt(l, r.id)
  {
    var i := AtIndex(l, r);
    forall v | 0 <= v < |l| ensures !Aims(l[v], r.id) {
      if Aims(l[v], r.id) {
        assert IsMarked(l, r.id);
        var k :| 0 <= k < |l| && l[k].id == r.id && l[k].reversed;
        SameRow(l, i, k);
      }
    }
  }

  lemma OwnStepStaysFirst(sys: System, i: nat, a: Action)
    requires Core(sys) && Unique(sys.db.ledger) && OnceReversed(sys.db.ledger)
    requires i < |sys.sessions| && Enabled(sys, i, a) && FirstOrTaken(sys.db, sys.sessions[i])
    ensures FirstOrTaken(DbAfter(sys, i, a), SessionAfter(sys, i, a))
  {
    hide OnFile, NotAimedAt, Unique, AtMostOneEach, TargetsMarked, Core, SessionAfter, DbAfter, Enabled;
    SessionKeepsEnv(sys, i, a);
    var t := SessionAfter(sys, i, a);
    if Active(t) && t.env.request.Reverse? {
      OriginalIsRead(sys, i, a);
      if a.Read? {
        UnmarkedIsNotAimedAt(sys.db.ledger, t.original.value);
      }
    }
  }

  lemma StepKeepsFirst(sys: System, i: nat, a: Action)
    requires Core(sys) && Traceable(sys) && i < |sys.sessions| && Enabled(sys, i, a)
    requires OnceReversed(sys.db.ledger) && AllFirstOrTaken(sys)
    requires forall j | 0 <= j < |sys.sessions| && j != i :: !Rivals(sys.sessions[i].env, sys.sessions[j].env)
    ensures AllFirstOrTaken(After(sys, i, a))
  {
    hide Core, Enabled, SessionAfter, DbAfter, OriginalKept, Unique, OnceReversed, FirstOrTaken, Rivals;
    var next := After(sys, i, a);
    forall j | 0 <= j < |next.sessions| ensures FirstOrTaken(next.db, next.sessions[j]) {
      if j == i {
        OwnStepStaysFirst(sys, i, a);
      } else {
        OthersStayFirst(sys, i, a, j);
      }
    }
  }

  lemma StartIsFirst(db: Store, es: seq<Env>)
    ensures AllFirstOrTaken(Start(db, es))
  {
  }

  // ─── Every interleaving ────────────────────────────────────────────────

  lemma {:induction false} ReachedIsOnce(db: Store, es: seq<Env>, steps: seq<Step>)
    requires AllInterleaved(es) && NoRivals(es) && Unique(db.ledger) && OnceReversed(db.ledger)
    requires Allowed(Start(db, es), steps)
    ensures var sys := Reached(Start(db, es), steps); OnceReversed(sys.db.ledger) && AllFirstOrTaken(sys)
  {
    hide Core, Traceable, OnceReversed, AllFirstOrTaken, Enabled, SessionAfter, DbAfter, Unique, Once, Rivals;
    if steps == [] {
      StartIsFirst(db, es);
    } else {
      var n := |steps| - 1;
      var sys, i, a := Reached(Start(db, es), steps[..n]), steps[n].session, steps[n].action;
      ReachedIsOnce(db, es, steps[..n]);
      ReachedIsTraceable(db, es, steps[..n]);
      ReachedIsCore(db, es, steps[..n]);
      SessionExists(sys, i, a);
      assert forall j | 0 <= j < |es| && j != i :: !Rivals(es[i], es[j]);
      StepKeepsOnce(sys, i, a);
      StepKeepsFirst(sys, i, a);
    }
  }

  lemma SessionExists(sys: System, i: nat, a: Action)
    requires Enabled(sys, i, a)
    ensures i < |sys.sessions|
  {
  }

  /** Where no two sessions reverse the same row under different keys, every interleaving, merges
      and closings included, keeps every row reversed at most once. */
  lemma ReversedAtMostOnce(db: Store, es: seq<Env>, steps: seq<Step>)
    requires AllInterleaved(es) && NoRivals(es) && Unique(db.ledger) && OnceReversed(db.ledger)
    requires Allowed(Start(db, es), steps)
    ensures AtMostOneEach(Reached(Start(db, es), steps).db.ledger)
  {
    hide NoRivals, AtMostOneEach, Start, Allowed, Reached;
    ReachedIsOnce(db, es, steps);
  }

  /** A reversal that would be served alone: its row is there, not reversed, its key is new, and the
      tables have room for it. */
  predicate CanReverse(db: Store, e: Env)
    requires e.request.Reverse?
  {
    var found := FindTx(db.ledger, e.tenant, e.request.target);
    found.Some? && !found.value.reversed && IsNew(db, e) && Fits(db, e, found.value)
  }

  /** A reversal that is due: it would be served alone, and there is room for its amount twice. */
  predicate Due(db: Store, e: Env)
    requires e.request.Reverse?
  {
    var found := FindTx(db.ledger, e.tenant, e.request.target);
    CanReverse(db, e) && Int4(Undo(found.value, Undo(found.value, db.customers[found.value.customer].balance)))
  }

  lemma RoomForTwo(db: Store, e: Env, f: Env, o: Row)
    requires e.request.Reverse? && f.request.Reverse? && e.tenant == f.tenant && o in db.ledger
    requires Fits(db, e, o) && Fits(db, f, o) && Int4(Undo(o, Undo(o, db.customers[o.customer].balance)))
    requires e.request.rowId != f.request.rowId && e.request.key != f.request.key
    ensures Fits(Overwrite(db, e, o), f, o)
  {
    var l, row := Overwrite(db, e, o).ledger, ReversalRow(f, o);
    forall k | 0 <= k < |l| ensures !Clash(l[k], [row][0]) {
      if k < |db.ledger| {
        assert !Clash(db.ledger[k], [row][0]);
      }
    }
  }

  /** Rivals that are due can both commit. */
  lemma RivalsReverseTwice(db: Store, es: seq<Env>, i: nat, j: nat)
    requires i < |es| && j < |es| && i != j && Rivals(es[i], es[j]) && Unique(db.ledger)
    requires Due(db, es[i]) && Due(db, es[j]) && es[i].request.rowId != es[j].request.rowId
    ensures exists steps :: Allowed(Start(db, es), steps) && !AtMostOneEach(Reached(Start(db, es), steps).db.ledger)
  {
    hide Unique, Insertable, AtMostOneEach, Start, Allowed, Reached, Undo, Overwrite;
    var o := FindTx(db.ledger, es[i].tenant, es[i].request.target).value;
    RoomForTwo(db, es[i], es[j], o);
    AnyRowCanBeReversedTwice(db, es, i, j, o);
  }

  /** Of rivals both are due, and the server drew different row ids for them. */
  ghost predicate RivalsAreDue(db: Store, es: seq<Env>) {
    forall i, j | 0 <= i < |es| && 0 <= j < |es| && i != j && Rivals(es[i], es[j]) ::
      Due(db, es[i]) && Due(db, es[j]) && es[i].request.rowId != es[j].request.rowId
  }

  /** Reversed at most once, exactly: every interleaving of the requests keeps every row reversed at
      most once if and only if no two of them reverse the same row under different keys. */
  lemma ReversedAtMostOnceExactly(db: Store, es: seq<Env>)
    requires AllInterleaved(es) && Unique(db.ledger) && OnceReversed(db.ledger) && RivalsAreDue(db, es)
    ensures NoRivals(es) <==>
              forall steps | Allowed(Start(db, es), steps) :: AtMostOneEach(Reached(Start(db, es), steps).db.ledger)
  {
    hide Unique, OnceReversed, AtMostOneEach, Start, Allowed, Reached, Rivals, Due;
    if NoRivals(es) {
      forall steps | Allowed(Start(db, es), steps) ensures AtMostOneEach(Reached(Start(db, es), steps).db.ledger) {
        ReversedAtMostOnce(db, es, steps);
      }
    } else {
      var i, j :| 0 <= i < |es| && 0 <= j < |es| && i != j && Rivals(es[i], es[j]);
      RivalsReverseTwice(db, es, i, j);
    }
  }

  /** The invariants of the tables provide the starting point. */
  lemma InvariantsSuffice(db: Store)
    requires Inv(db)
    ensures Unique(db.ledger) && OnceReversed(db.ledger)
  {
    hide Semaphore, Sealed, Solvent, Owned, Tidy;
    var l := db.ledger;
    forall v | 0 <= v < |l| && l[v].kind == REVERSAL ensures l[v].reverses.Some? && IsMarked(l, l[v].reverses.value) {
      assert HasOriginal(l, v);
      var j :| 0 <= j < v && Undoes(l[v], l[j]);
      assert l[j].id == l[v].reverses.value && l[j].reversed;
    }
  }
}
