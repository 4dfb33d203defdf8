/** Reversals under interleaving: a reversal reads and tests its row before it takes its lock. Exactly
    when it still commits as one step, and exactly when a row is reversed at most once. */
module Reversals {
  import opened Domain
  import opened Ledger
  import opened Engine
  import opened Invariants
  import opened Sessions
  import opened Serial

  // ─── A reversal is one step, exactly ───────────────────────────────────

  /** The same row but for the columns that UPDATEs touch. */
  predicate SameEntry(a: Row, b: Row) {
    b == a.(customer := b.customer, reversed := b.reversed, shift := b.shift)
  }

  /** A reversal's row is still in the ledger in some version. */
  ghost predicate OriginalKept(db: Store, s: Session) {
    Active(s) && s.env.request.Reverse? ==>
      s.original.Some? && exists k :: 0 <= k < |db.ledger| && SameEntry(s.original.value, db.ledger[k])
  }

  /** What holds of reversals in every interleaving, disturbed or not. */
  ghost predicate Traceable(sys: System) {
    Unique(sys.db.ledger) && forall i | 0 <= i < |sys.sessions| :: OriginalKept(sys.db, sys.sessions[i])
  }

  /** No step deletes a row or changes what it records. */
  lemma StepKeepsEntries(sys: System, i: nat, a: Action)
    requires Core(sys) && i < |sys.sessions| && Enabled(sys, i, a)
    ensures var l, m := sys.db.ledger, DbAfter(sys, i, a).ledger;
            |l| <= |m| && forall k | 0 <= k < |l| :: SameEntry(l[k], m[k])
  {
    hide Apply;
    var s := sys.sessions[i];
    if a.Begin? && Atomic(s.env.request) {
      AtomicKeepsKeys(sys.db, s.env);
    }
  }

  lemma StepKeepsUnique(sys: System, i: nat, a: Action)
    requires Core(sys) && i < |sys.sessions| && Enabled(sys, i, a) && Unique(sys.db.ledger)
    ensures Unique(DbAfter(sys, i, a).ledger)
  {
    hide Apply;
    var s, l := sys.sessions[i], sys.db.ledger;
    if a.Commit? && PlanFits(s.plan) {
      assert Sound(sys.db, s) && PendingRows(s) == s.plan.rows;
      SameKeysInsert(l, Rewrite(l, s), s.plan.rows);
      SameKeysUnique(l, Rewrite(l, s));
      InsertKeepsUnique(Rewrite(l, s), s.plan.rows);
    } else if a.Begin? && Atomic(s.env.request) {
      AtomicKeepsKeys(sys.db, s.env);
      SameKeysUnique(l, Apply(sys.db, s.env).store.ledger);
    }
  }

  lemma SameKeysUnique(l: seq<Row>, m: seq<Row>)
    requires Unique(l) && |l| == |m|
    requires forall k | 0 <= k < |l| :: m[k].id == l[k].id && m[k].tenant == l[k].tenant && m[k].key == l[k].key
    ensures Unique(m)
  {
    forall k, n | 0 <= k < n < |m| ensures !Clash(m[k], m[n]) {
      assert !Clash(l[k], l[n]);
    }
  }

  lemma EntryKept(db: Store, after: Store, s: Session)
    requires OriginalKept(db, s) && |db.ledger| <= |after.ledger|
    requires forall k | 0 <= k < |db.ledger| :: SameEntry(db.ledger[k], after.ledger[k])
    ensures OriginalKept(after, s)
  {
    if Active(s) && s.env.request.Reverse? {
      var k :| 0 <= k < |db.ledger| && SameEntry(s.original.value, db.ledger[k]);
      assert SameEntry(s.original.value, after.ledger[k]);
    }
  }

  lemma OwnEntryKept(sys: System, i: nat, a: Action)
    requires i < |sys.sessions| && Enabled(sys, i, a) && OriginalKept(sys.db, sys.sessions[i])
    ensures OriginalKept(sys.db, SessionAfter(sys, i, a))
  {
    hide SameEntry, SessionAfter, DbAfter, Enabled;
    SessionKeepsEnv(sys, i, a);
    var t := SessionAfter(sys, i, a);
    if Active(t) && t.env.request.Reverse? {
      OriginalIsRead(sys, i, a);
      if a.Read? {
        var k := AtIndex(sys.db.ledger, t.original.value);
        SameAsItself(sys.db.ledger[k]);
      }
    }
  }

  lemma SameAsItself(r: Row)
    ensures SameEntry(r, r)
  {
  }

  lemma StepKeepsTraceable(sys: System, i: nat, a: Action)
    requires Core(sys) && i < |sys.sessions| && Enabled(sys, i, a) && Traceable(sys)
    ensures Traceable(After(sys, i, a))
  {
    hide Core, Enabled, SessionAfter, DbAfter, OriginalKept, Unique, SameEntry;
    StepKeepsUnique(sys, i, a);
    StepKeepsEntries(sys, i, a);
    OwnEntryKept(sys, i, a);
    var next := After(sys, i, a);
    forall j | 0 <= j < |next.sessions| ensures OriginalKept(next.db, next.sessions[j]) {
      EntryKept(sys.db, next.db, next.sessions[j]);
    }
  }

  lemma {:induction false} ReachedIsTraceable(db: Store, es: seq<Env>, steps: seq<Step>)
    requires AllInterleaved(es) && Unique(db.ledger) && Allowed(Start(db, es), steps)
    ensures Core(Reached(Start(db, es), steps)) && Traceable(Reached(Start(db, es), steps))
  {
    hide Core, OriginalKept, After, Unique;
    ReachedIsCore(db, es, steps);
    if steps == [] {
      StartIsTraceable(db, es);
    } else {
      var n := |steps| - 1;
      ReachedIsTraceable(db, es, steps[..n]);
      StepKeepsTraceable(Reached(Start(db, es), steps[..n]), steps[n].session, steps[n].action);
    }
  }

  lemma StartIsTraceable(db: Store, es: seq<Env>)
    requires Unique(db.ledger)
    ensures Traceable(Start(db, es))
  {
  }

  /** If the engine's reversal and the session's agree, the session's row is the ledger's. */
  lemma AgreementMeansCurrent(db: Store, s: Session)
    requires Sound(db, s) && ReadyToCommit(s) && s.env.request.Reverse?
    requires Unique(db.ledger) && OriginalKept(db, s) && ActsAsApply(db, s)
    ensures s.original.value in db.ledger
  {
    hide Current, PostingVerdict, Insertable, Undo, Unique;
    var e, o := s.env, s.original.value;
    assert PendingRows(s) == s.plan.rows;
    PlanCarriesKey(s);
    AcceptedKeyIsNew(db.ledger, s.plan.rows, e.tenant, e.request.key);
    assert Apply(db, e).reply.Posted?;
    var found := FindTx(db.ledger, e.tenant, e.request.target).value;
    var k := AtIndex(db.ledger, found);
    var n :| 0 <= n < |db.ledger| && SameEntry(o, db.ledger[n]);
    SameRow(db.ledger, k, n);
    assert Apply(db, e).store.ledger[k] == found.(reversed := true);
    assert Publish(db, s).ledger[k] == Rewritten(found, s);
    assert Apply(db, e).reply.row == ReversalRow(e, found);
    assert found == o;
  }

  /** In every interleaving, whatever the others do, a reversal commits as one step of the engine
      if and only if the row it read before it took its lock is, at its commit, still the row it
      read: not reversed, not moved by a merge, not frozen into a shift. */
  lemma ReversalIsSerialExactly(db: Store, es: seq<Env>, steps: seq<Step>, i: nat)
    requires AllInterleaved(es) && Unique(db.ledger) && Allowed(Start(db, es), steps)
    requires i < |es| && es[i].request.Reverse?
    requires var sys := Reached(Start(db, es), steps); i < |sys.sessions| && ReadyToCommit(sys.sessions[i])
    ensures var sys := Reached(Start(db, es), steps);
            && sys.sessions[i].original.Some?
            && (ActsAsApply(sys.db, sys.sessions[i]) <==> sys.sessions[i].original.value in sys.db.ledger)
  {
    hide Unique, Allowed, Reached, Start, Current, Fitting, ActsAsApply, Apply, Publish;
    ReachedIsTraceable(db, es, steps);
    ReachedIsCore(db, es, steps);
    var sys := Reached(Start(db, es), steps);
    var s := sys.sessions[i];
    assert Sound(sys.db, s);
    if s.original.value in sys.db.ledger {
      ReverseCommits(sys.db, s);
    }
    if ActsAsApply(sys.db, s) {
      AgreementMeansCurrent(sys.db, s);
    }
  }

  // ─── An interleaving is serial, exactly ────────────────────────────────

  /** The tables and the replies so far are those of the log served in order. */
  ghost predicate InSerialOrder(db: Store, es: seq<Env>, sys: System) {
    && (forall k | 0 <= k < |sys.log| :: sys.log[k] < |es|)
    && sys.db == Run(db, Pick(es, sys.log)) && RepliesAgree(db, es, sys)
  }

  /** They are so after every step. */
  ghost predicate AlwaysSerial(db: Store, es: seq<Env>, steps: seq<Step>)
    requires Allowed(Start(db, es), steps)
    decreases |steps|
  {
    && InSerialOrder(db, es, Reached(Start(db, es), steps))
    && (steps != [] ==> AlwaysSerial(db, es, steps[..|steps| - 1]))
  }

  lemma ExplainedIsSerial(db: Store, es: seq<Env>, sys: System)
    requires Explained(db, es, sys)
    ensures InSerialOrder(db, es, sys)
  {
    hide WellFormedRun;
  }

  lemma {:induction false} CurrentIsAlwaysSerial(db: Store, es: seq<Env>, steps: seq<Step>)
    requires Fair(db, es) && Allowed(Start(db, es), steps) && ReversalsCommitCurrent(Start(db, es), steps)
    ensures AlwaysSerial(db, es, steps)
  {
    hide Core, Explained, Prepared, AllMovesCurrent, InSerialOrder, Fair, Start, ReversalCommitsCurrent, Enabled,
      After;
    ReachedIsExplained(db, es, steps);
    ExplainedIsSerial(db, es, Reached(Start(db, es), steps));
    if steps != [] {
      CurrentIsAlwaysSerial(db, es, steps[..|steps| - 1]);
    }
  }

  /** The reply of the session committed last is the engine's on the tables before it. */
  lemma LastReplyAgrees(db: Store, es: seq<Env>, next: System, log: seq<nat>, i: nat)
    requires RepliesAgree(db, es, next) && next.log == log + [i]
    ensures i < |es| && i < |next.sessions| && forall m | 0 <= m < |log| :: log[m] < |es|
    ensures next.sessions[i].reply == Apply(Run(db, Pick(es, log)), es[i]).reply
  {
    hide Apply, Run, Pick;
    assert next.log[|log|] == i && next.log[..|log|] == log;
  }

  /** What the commit of a session that is ready leaves. */
  lemma CommitLeaves(sys: System, i: nat)
    requires i < |sys.sessions| && Enabled(sys, i, Commit) && ReadyToCommit(sys.sessions[i])
    ensures var next, s := After(sys, i, Commit), sys.sessions[i];
            && next.db == Publish(sys.db, s) && next.log == sys.log + [i]
            && |next.sessions| == |sys.sessions| && next.sessions[i].reply == s.plan.reply
  {
    hide Publish, PlanFits;
  }

  /** If the log explains the tables before and after a reversal's commit, the commit was the
      engine's step. */
  lemma SerialCommitActs(db: Store, es: seq<Env>, sys: System, i: nat)
    requires Explained(db, es, sys) && i < |sys.sessions| && Enabled(sys, i, Commit) && ReadyToCommit(sys.sessions[i])
    requires InSerialOrder(db, es, After(sys, i, Commit))
    ensures ActsAsApply(sys.db, sys.sessions[i])
  {
    hide Apply, Publish, WellFormedRun, Pick, After, Enabled, ReadyToCommit, RepliesAgree, Logged;
    CommitLeaves(sys, i);
    LastReplyAgrees(db, es, After(sys, i, Commit), sys.log, i);
    PickAppend(es, sys.log, i);
  }

  lemma SerialStepReadsCurrent(db: Store, es: seq<Env>, sys: System, i: nat, a: Action)
    requires Explained(db, es, sys) && Core(sys) && Traceable(sys) && Enabled(sys, i, a)
    requires InSerialOrder(db, es, After(sys, i, a))
    ensures ReversalCommitsCurrent(sys, i, a)
  {
    hide Explained, InSerialOrder, ActsAsApply, Apply, Publish, Current, Fitting, VerdictOf, Unique, SameEntry,
      After;
    if a.Commit? && sys.sessions[i].env.request.Reverse? && ReadyToCommit(sys.sessions[i]) {
      SerialCommitActs(db, es, sys, i);
      assert Sound(sys.db, sys.sessions[i]) && OriginalKept(sys.db, sys.sessions[i]);
      AgreementMeansCurrent(sys.db, sys.sessions[i]);
    }
  }

  lemma {:induction false} AlwaysSerialIsCurrent(db: Store, es: seq<Env>, steps: seq<Step>)
    requires Fair(db, es) && Unique(db.ledger) && Allowed(Start(db, es), steps) && AlwaysSerial(db, es, steps)
    ensures ReversalsCommitCurrent(Start(db, es), steps)
  {
    hide Core, Explained, Prepared, AllMovesCurrent, InSerialOrder, Inv, WellFormed, Start, ReversalCommitsCurrent,
      Enabled, After, Traceable, Unique;
    if steps != [] {
      var n := |steps| - 1;
      var sys := Reached(Start(db, es), steps[..n]);
      AlwaysSerialIsCurrent(db, es, steps[..n]);
      ReachedIsExplained(db, es, steps[..n]);
      ReachedIsTraceable(db, es, steps[..n]);
      SerialStepReadsCurrent(db, es, sys, steps[n].session, steps[n].action);
    }
  }

  /** An interleaving, of any requests, is at every moment the serial service of the requests
      committed so far if and only if each reversal that commits in it finds its row as it read it. */
  lemma SerializableExactly(db: Store, es: seq<Env>, steps: seq<Step>)
    requires Fair(db, es) && Allowed(Start(db, es), steps)
    ensures AlwaysSerial(db, es, steps) <==> ReversalsCommitCurrent(Start(db, es), steps)
  {
    hide AlwaysSerial, ReversalsCommitCurrent, Start, Plausible, WellFormed, Linked, Tidy, Owned, Solvent, Semaphore,
      Sealed;
    if AlwaysSerial(db, es, steps) {
      AlwaysSerialIsCurrent(db, es, steps);
    } else if ReversalsCommitCurrent(Start(db, es), steps) {
      CurrentIsAlwaysSerial(db, es, steps);
    }
  }
}
