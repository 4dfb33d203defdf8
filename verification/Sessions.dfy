/** Concurrent requests: database sessions that interleave statement by statement over row locks,
    unique keys and uncommitted writes, at READ COMMITTED. */
module Sessions {
  import opened Domain
  import opened Ledger
  import opened Engine

  // ─── Sessions ──────────────────────────────────────────────────────────

  datatype Phase = Waiting | Checked | Locking | Writing | Committed | RolledBack

  /** What a session decided to write once it held its locks. */
  datatype Plan = Plan(rows: seq<Row>, batch: Option<Batch>, saves: map<Uuid, Customer>, reply: Reply)

  /** One request on its own connection. A reversal is `Checked` between its key lookup and the
      read of its row.
      `original` is what a reversal read before locking; `taken` counts the locks taken so far and
      `copies` the rows read under them; `moved` lists the rows a merge's UPDATE found; `done`
      counts the rows inserted and `recorded` says whether the batch record is; `posted` marks a
      commit that wrote something under an idempotency key. */
  datatype Session = Session(
    env: Env, phase: Phase, original: Option<Row>, taken: nat, copies: map<Uuid, Customer>,
    plan: Plan, moved: set<Uuid>, done: nat, recorded: bool, posted: bool, reply: Reply)

  /** The committed tables, the sessions, and the sessions committed so far, in commit order. */
  datatype System = System(db: Store, sessions: seq<Session>, log: seq<nat>)

  /** The requests that lock before they write, and the two that are taken as one step. */
  predicate Interleaved(q: Request) {
    !q.CreateCustomer? && !q.ToggleBlock?
  }

  predicate Atomic(q: Request) {
    q.OpenTurn? || q.CloseTurn?
  }

  const NOTHING := Plan([], None, map[], Rejected(DbError))

  function NewSession(e: Env): Session {
    Session(e, Waiting, None, 0, map[], NOTHING, {}, 0, false, false, Rejected(DbError))
  }

  function Start(db: Store, es: seq<Env>): System {
    System(db, seq(|es|, i requires 0 <= i < |es| => NewSession(es[i])), [])
  }

  // ─── Locks ─────────────────────────────────────────────────────────────

  predicate Active(s: Session) {
    s.phase.Locking? || s.phase.Writing?
  }

  predicate Finished(s: Session) {
    s.phase.Committed? || s.phase.RolledBack?
  }

  /** The customer rows a session locks, in this order. */
  function LockOrder(q: Request, original: Option<Row>): seq<Uuid> {
    match q
    case Merge(p, r) => [Min(p, r), Max(p, r)]
    case Inflate(_, _, slots) => seq(|slots|, i requires 0 <= i < |slots| => slots[i].customer)
    case Reverse(_, _, _) => if original.Some? then [original.value.customer] else []
    case RegisterDebt(c, _, _, _) => [c]
    case RegisterPayment(c, _, _, _, _) => [c]
    case RegisterMixed(c, _, _, _, _, _, _, _, _, _) => [c]
    case Forgive(c, _, _) => [c]
    case SetLimit(c, _) => [c]
    case _ => []
  }

  function Order(s: Session): seq<Uuid> {
    LockOrder(s.env.request, s.original)
  }

  function Held(s: Session): seq<Uuid> {
    if Active(s) && s.taken <= |Order(s)| then Order(s)[..s.taken] else []
  }

  predicate Holds(s: Session, c: Uuid) {
    c in Held(s)
  }

  /** The row the session locks next is one of its tenant's and another session holds it. */
  ghost predicate LockBusy(sys: System, i: nat)
    requires i < |sys.sessions| && sys.sessions[i].taken < |Order(sys.sessions[i])|
  {
    Owns(sys.db, sys.sessions[i].env.tenant, Order(sys.sessions[i])[sys.sessions[i].taken]) &&
    exists j :: 0 <= j < |sys.sessions| && j != i
                && Holds(sys.sessions[j], Order(sys.sessions[i])[sys.sessions[i].taken])
  }

  // ─── Uncommitted inserts ───────────────────────────────────────────────

  function PendingRows(s: Session): seq<Row> {
    if s.phase.Writing? && s.done <= |s.plan.rows| then s.plan.rows[..s.done] else []
  }

  predicate PendingBatch(s: Session) {
    s.phase.Writing? && s.env.request.Inflate? && s.recorded
  }

  predicate SameBatchKey(a: Session, b: Session) {
    a.env.request.Inflate? && b.env.request.Inflate?
    && a.env.tenant == b.env.tenant && a.env.request.key == b.env.request.key
  }

  ghost predicate ClashesWith(r: Row, l: seq<Row>) {
    exists k :: 0 <= k < |l| && Clash(r, l[k])
  }

  /** Another session has an uncommitted row under a key of the row to insert next: the unique
      index makes the insert wait. */
  ghost predicate RowBusy(sys: System, i: nat)
    requires i < |sys.sessions| && sys.sessions[i].done < |sys.sessions[i].plan.rows|
  {
    exists j :: 0 <= j < |sys.sessions| && j != i
                && ClashesWith(sys.sessions[i].plan.rows[sys.sessions[i].done], PendingRows(sys.sessions[j]))
  }

  ghost predicate BatchBusy(sys: System, i: nat)
    requires i < |sys.sessions|
  {
    exists j :: 0 <= j < |sys.sessions| && j != i
                && PendingBatch(sys.sessions[j]) && SameBatchKey(sys.sessions[i], sys.sessions[j])
  }

  /** The unique indexes or the column width refuse the row. */
  ghost predicate RowRefused(db: Store, s: Session, r: Row) {
    !Int4(r.amount) || ClashesWith(r, db.ledger) || ClashesWith(r, PendingRows(s))
  }

  // ─── Decisions ─────────────────────────────────────────────────────────

  datatype Verdict = Stop(error: Error) | Go(plan: Plan)

  function SurchargedOnly(copies: map<Uuid, Customer>, rate: Rate): map<Uuid, Customer> {
    map c | c in copies && copies[c] != Inflated(copies[c], rate) :: Inflated(copies[c], rate)
  }

  function PostingVerdict(e: Env, copies: map<Uuid, Customer>): Verdict
    requires IsPosting(e.request)
  {
    var id := e.request.customer;
    if id !in copies then Stop(NotFound)
    else
      match Decide(e, copies[id])
      case Refuse(error) => Stop(error)
      case Write(rows, c) => Go(Plan(rows, None, map[id := c], Done(rows)))
  }

  /** What a session decides from the rows it has locked. */
  function VerdictOf(e: Env, copies: map<Uuid, Customer>, original: Option<Row>): Verdict {
    if IsPosting(e.request) then PostingVerdict(e, copies)
    else
      match e.request
      case Merge(p, r) =>
        if p !in copies || r !in copies then Stop(NotFound)
        else
          var (joined, rest) := Absorb(copies[p], copies[r]);
          Go(Plan([], None, map[p := joined, r := rest], CustomerSaved(p, joined)))
      case SetLimit(c, limit) =>
        if c !in copies then Stop(NotFound)
        else Go(Plan([], None, map[c := copies[c].(limit := limit)], CustomerSaved(c, copies[c].(limit := limit))))
      case Inflate(rate, _, slots) =>
        var affected, total := DebtorCount(copies, slots), InflationTotal(copies, rate, slots);
        Go(Plan(InflationRows(e, copies, rate, slots), Some(Batch(affected, total)),
                SurchargedOnly(copies, rate), BatchApplied(affected, total)))
      case Reverse(_, _, _) =>
        if original.None? || original.value.customer !in copies then Stop(NotFound)
        else
          var o := original.value;
          var c := copies[o.customer];
          Go(Plan([ReversalRow(e, o)], None, map[o.customer := c.(balance := Undo(o, c.balance))],
                  Posted(ReversalRow(e, o))))
      case _ => Stop(NotFound)
  }

  /** The rows a merge's UPDATE finds. */
  ghost function RowsToMove(l: seq<Row>, e: Env): set<Uuid> {
    if e.request.Merge? then
      set i | 0 <= i < |l| && l[i].tenant == e.tenant && l[i].customer == e.request.secondary :: l[i].id
    else {}
  }

  predicate PlanFits(p: Plan) {
    forall c | c in p.saves :: Int4(p.saves[c].balance) && Int4(p.saves[c].limit)
  }

  // ─── Commit ────────────────────────────────────────────────────────────

  /** A row after the session's UPDATEs: moved by a merge, or overwritten with what a reversal
      read before it took its lock. */
  function Rewritten(r: Row, s: Session): Row {
    if s.env.request.Reverse? && s.original.Some? && r.id == s.original.value.id then
      r.(customer := s.original.value.customer, reversed := true, shift := s.original.value.shift)
    else if s.env.request.Merge? && r.id in s.moved then r.(customer := s.env.request.primary)
    else r
  }

  function Rewrite(l: seq<Row>, s: Session): (m: seq<Row>)
    ensures |m| == |l|
    ensures forall i | 0 <= i < |l| :: m[i] == Rewritten(l[i], s)
  {
    seq(|l|, i requires 0 <= i < |l| => Rewritten(l[i], s))
  }

  /** The committed tables once the session's writes are published. */
  function Publish(db: Store, s: Session): Store {
    db.(ledger := Rewrite(db.ledger, s) + s.plan.rows,
        customers := db.customers + s.plan.saves,
        batches := if s.env.request.Inflate? && s.plan.batch.Some?
          then db.batches[(s.env.tenant, s.env.request.key) := s.plan.batch.value] else db.batches)
  }

  // ─── Steps ─────────────────────────────────────────────────────────────

  datatype Action = Begin | Read | Lock | Choose | InsertRow | InsertBatch | Commit | Abort

  ghost predicate Enabled(sys: System, i: nat, a: Action) {
    i < |sys.sessions| &&
    var s := sys.sessions[i];
    match a
    case Begin => s.phase.Waiting?
    case Read => s.phase.Checked?
    case Lock => s.phase.Locking? && s.taken < |Order(s)| && !LockBusy(sys, i)
    case Choose => s.phase.Locking? && s.taken == |Order(s)|
    case InsertRow => s.phase.Writing? && s.done < |s.plan.rows| && !RowBusy(sys, i)
    case InsertBatch =>
      s.phase.Writing? && s.done == |s.plan.rows| && s.plan.batch.Some? && !s.recorded && !BatchBusy(sys, i)
    case Commit => s.phase.Writing? && s.done == |s.plan.rows| && (s.plan.batch.Some? ==> s.recorded)
    case Abort => Active(s)
  }

  function Fail(s: Session, error: Error): Session {
    s.(phase := RolledBack, reply := Rejected(error))
  }

  function Succeed(s: Session, reply: Reply, posted: bool): Session {
    s.(phase := Committed, reply := reply, posted := posted)
  }

  predicate HasLedgerKey(q: Request) {
    IsPosting(q) || q.Reverse?
  }

  /** The reply of a request that finds its key already committed, before any lock. */
  function ReplayOf(db: Store, e: Env): Option<Reply> {
    var q := e.request;
    if HasLedgerKey(q) then
      var existing := FindKey(db.ledger, e.tenant, q.key);
      if existing.None? then None
      else if q.Reverse? then Some(Posted(existing.value)) else Some(Replay(db.ledger, q, existing.value))
    else if q.Inflate? && (e.tenant, q.key) in db.batches then
      Some(BatchApplied(db.batches[(e.tenant, q.key)].affected, db.batches[(e.tenant, q.key)].total))
    else None
  }

  /** The checks made before the transaction is opened. */
  predicate Validated(q: Request) {
    && (q.RegisterMixed? ==> q.cash + q.transfer == q.total)
    && (q.Merge? ==> q.primary != q.secondary)
  }

  /** The first statements: validation and the idempotency check. */
  ghost function Begun(db: Store, s: Session): Session {
    var q := s.env.request;
    if !Validated(q) then Fail(s, if q.Merge? then SelfMerge else SumMismatch)
    else if ReplayOf(db, s.env).Some? then Succeed(s, ReplayOf(db, s.env).value, false)
    else if Atomic(q) then
      var o := Apply(db, s.env);
      if o.reply.Rejected? then Fail(s, o.reply.error) else Succeed(s, o.reply, false)
    else s.(phase := if q.Reverse? then Checked else Locking)
  }

  /** A reversal's read of its row, without a lock. */
  function Looked(db: Store, s: Session): Session {
    if !s.env.request.Reverse? then Fail(s, NotFound)
    else
      var found := FindTx(db.ledger, s.env.tenant, s.env.request.target);
      if found.None? then Fail(s, NotFound)
      else if found.value.reversed then Fail(s, AlreadyReversed)
      else s.(phase := Locking, original := found)
  }

  function Locked(db: Store, s: Session): Session
    requires s.taken < |Order(s)|
  {
    var c := Order(s)[s.taken];
    if Owns(db, s.env.tenant, c) then s.(taken := s.taken + 1, copies := s.copies[c := db.customers[c]])
    else Fail(s, if s.env.request.Merge? then MissingRole(s.env.request, c) else NotFound)
  }

  ghost function Chosen(db: Store, s: Session): Session {
    match VerdictOf(s.env, s.copies, s.original)
    case Stop(error) => Fail(s, error)
    case Go(plan) => s.(phase := Writing, plan := plan, moved := RowsToMove(db.ledger, s.env), done := 0,
        recorded := false)
  }

  ghost function Inserted(db: Store, s: Session): Session
    requires s.done < |s.plan.rows|
  {
    if RowRefused(db, s, s.plan.rows[s.done]) then Fail(s, DbError) else s.(done := s.done + 1)
  }

  function Recorded(db: Store, s: Session): Session {
    if s.env.request.Inflate? && (s.env.tenant, s.env.request.key) !in db.batches then s.(recorded := true)
    else Fail(s, DbError)
  }

  function Ended(s: Session): Session {
    if PlanFits(s.plan) then Succeed(s, s.plan.reply, HasLedgerKey(s.env.request) || s.env.request.Inflate?)
    else Fail(s, DbError)
  }

  ghost function SessionAfter(sys: System, i: nat, a: Action): Session
    requires Enabled(sys, i, a)
  {
    var s := sys.sessions[i];
    match a
    case Begin => Begun(sys.db, s)
    case Read => Looked(sys.db, s)
    case Lock => Locked(sys.db, s)
    case Choose => Chosen(sys.db, s)
    case InsertRow => Inserted(sys.db, s)
    case InsertBatch => Recorded(sys.db, s)
    case Commit => Ended(s)
    case Abort => Fail(s, DbError)
  }

  ghost function DbAfter(sys: System, i: nat, a: Action): Store
    requires Enabled(sys, i, a)
  {
    var s := sys.sessions[i];
    if a.Commit? && PlanFits(s.plan) then Publish(sys.db, s)
    else if a.Begin? && Atomic(s.env.request) then Apply(sys.db, s.env).store
    else sys.db
  }

  ghost function After(sys: System, i: nat, a: Action): System
    requires Enabled(sys, i, a)
  {
    var t := SessionAfter(sys, i, a);
    System(DbAfter(sys, i, a), sys.sessions[i := t], if t.phase.Committed? then sys.log + [i] else sys.log)
  }

  // ─── Executions ────────────────────────────────────────────────────────

  datatype Step = Step(session: nat, action: Action)

  ghost predicate Allowed(sys: System, steps: seq<Step>)
    decreases |steps|, 0
  {
    steps == [] ||
    (Allowed(sys, steps[..|steps| - 1]) &&
     Enabled(Reached(sys, steps[..|steps| - 1]), steps[|steps| - 1].session, steps[|steps| - 1].action))
  }

  /** The system after an interleaving. */
  ghost function Reached(sys: System, steps: seq<Step>): System
    requires Allowed(sys, steps)
    decreases |steps|, 1
  {
    if steps == [] then sys
    else After(Reached(sys, steps[..|steps| - 1]), steps[|steps| - 1].session, steps[|steps| - 1].action)
  }

  // ─── What every interleaving keeps ─────────────────────────────────────

  /** Two sessions never hold the same row lock. */
  ghost predicate Exclusive(a: Session, b: Session) {
    forall c :: !(Holds(a, c) && Holds(b, c))
  }

  /** Two sessions never have uncommitted inserts under the same unique key. */
  ghost predicate Apart(a: Session, b: Session) {
    && (forall k, m | 0 <= k < |PendingRows(a)| && 0 <= m < |PendingRows(b)| ::
          !Clash(PendingRows(a)[k], PendingRows(b)[m]))
    && !(PendingBatch(a) && PendingBatch(b) && SameBatchKey(a, b))
  }

  /** What a session read under its locks is still what is committed. */
  ghost predicate Current(db: Store, s: Session) {
    && (forall c | Holds(s, c) :: Owns(db, s.env.tenant, c) && c in s.copies && s.copies[c] == db.customers[c])
    && (Active(s) ==> forall c | c in s.copies :: Holds(s, c))
  }

  /** The uncommitted inserts of a session still fit the committed tables. */
  ghost predicate Fitting(db: Store, s: Session) {
    && Insertable(db.ledger, PendingRows(s))
    && (PendingBatch(s) ==> (s.env.tenant, s.env.request.key) !in db.batches)
  }

  ghost predicate OnTrack(s: Session) {
    && (s.phase.Waiting? || s.phase.Checked? ==>
          s.taken == 0 && s.copies == map[] && s.original.None? && !s.posted)
    && (s.phase.Checked? ==> s.env.request.Reverse?)
    && (Active(s) ==>
          && s.taken <= |Order(s)| && !Atomic(s.env.request) && Interleaved(s.env.request)
              && Validated(s.env.request) && !s.posted)
    && (s.phase.Writing? ==>
          && s.taken == |Order(s)| && (s.recorded ==> s.done == |s.plan.rows|)
              && VerdictOf(s.env, s.copies, s.original) == Go(s.plan)
          && s.done <= |s.plan.rows|)
    && (s.original.Some? ==> s.env.request.Reverse?)
    && (Active(s) && s.env.request.Reverse? ==>
          && s.original.Some? && !s.original.value.reversed
          && s.original.value.tenant == s.env.tenant && s.original.value.id == s.env.request.target)
  }

  ghost predicate Sound(db: Store, s: Session) {
    Current(db, s) && Fitting(db, s) && OnTrack(s)
  }

  ghost predicate Core(sys: System) {
    && (forall i | 0 <= i < |sys.sessions| :: Sound(sys.db, sys.sessions[i]))
    && (forall i, j | 0 <= i < |sys.sessions| && 0 <= j < |sys.sessions| && i != j ::
          Exclusive(sys.sessions[i], sys.sessions[j]) && Apart(sys.sessions[i], sys.sessions[j]))
  }

  /** Rows whose unique columns did not change collide as before. */
  lemma SameKeysInsert(l: seq<Row>, m: seq<Row>, rows: seq<Row>)
    requires |l| == |m| && Insertable(l, rows)
    requires forall i | 0 <= i < |l| :: m[i].id == l[i].id && m[i].tenant == l[i].tenant && m[i].key == l[i].key
    ensures Insertable(m, rows)
  {
    forall i, j | 0 <= i < |m| && 0 <= j < |rows| ensures !Clash(m[i], rows[j]) {
      assert !Clash(l[i], rows[j]);
    }
  }

  /** The plan saves only rows that are locked. */
  lemma SavesAreHeld(db: Store, s: Session)
    requires Sound(db, s) && s.phase.Writing?
    ensures forall c | c in s.plan.saves :: Holds(s, c) && s.plan.saves[c].tenant == db.customers[c].tenant
  {
    assert Order(s)[..s.taken] == Order(s);
    forall c | c in s.plan.saves ensures Holds(s, c) && s.plan.saves[c].tenant == db.customers[c].tenant {
      assert c in s.copies;
    }
  }

  lemma PublishKeepsCurrent(db: Store, s: Session, t: Session)
    requires Sound(db, s) && Current(db, t) && Exclusive(s, t) && s.phase.Writing?
    ensures Current(Publish(db, s), t)
  {
    hide VerdictOf, Insertable, Rewrite;
    SavesAreHeld(db, s);
    forall c | Holds(t, c) ensures c !in s.plan.saves {
      assert !Holds(s, c);
    }
  }

  lemma PublishKeepsFitting(db: Store, s: Session, t: Session)
    requires Sound(db, s) && Fitting(db, t) && Apart(s, t)
    requires s.phase.Writing? && s.done == |s.plan.rows| && (s.plan.batch.Some? ==> s.recorded)
    ensures Fitting(Publish(db, s), t)
  {
    hide VerdictOf, Current;
    var rows := PendingRows(t);
    SameKeysInsert(db.ledger, Rewrite(db.ledger, s), rows);
    assert PendingRows(s) == s.plan.rows;
    AppendedStillFit(Rewrite(db.ledger, s), s.plan.rows, rows);
  }

  /** Rows that fit a ledger and collide with none of the rows appended to it still fit. */
  lemma AppendedStillFit(l: seq<Row>, more: seq<Row>, rows: seq<Row>)
    requires Insertable(l, rows)
    requires forall k, m | 0 <= k < |more| && 0 <= m < |rows| :: !Clash(more[k], rows[m])
    ensures Insertable(l + more, rows)
  {
  }

  /** A commit leaves every other session's view and pending inserts valid. */
  lemma PublishKeepsSound(db: Store, s: Session, t: Session)
    requires Sound(db, s) && Sound(db, t) && Exclusive(s, t) && Apart(s, t)
    requires s.phase.Writing? && s.done == |s.plan.rows| && (s.plan.batch.Some? ==> s.recorded)
    ensures Sound(Publish(db, s), t)
  {
    hide Current, Fitting, OnTrack, Exclusive, Apart, Publish;
    PublishKeepsCurrent(db, s, t);
    PublishKeepsFitting(db, s, t);
  }

  lemma AtomicKeepsSound(db: Store, e: Env, t: Session)
    requires Sound(db, t) && Atomic(e.request)
    ensures Sound(Apply(db, e).store, t)
  {
    hide Apply, Insertable;
    AtomicKeepsKeys(db, e);
    SameKeysInsert(db.ledger, Apply(db, e).store.ledger, PendingRows(t));
  }

  /** Opening and closing a shift touch no customer, no batch and no unique column of a row. */
  lemma AtomicKeepsKeys(db: Store, e: Env)
    requires Atomic(e.request)
    ensures var t := Apply(db, e).store;
            && t.customers == db.customers && t.batches == db.batches && |t.ledger| == |db.ledger|
            && forall i | 0 <= i < |db.ledger| :: t.ledger[i] == db.ledger[i].(shift := t.ledger[i].shift)
  {
  }

  /** The tables a step leaves suit every other session. */
  lemma OthersStaySound(sys: System, i: nat, a: Action, j: nat)
    requires Core(sys) && Enabled(sys, i, a) && j < |sys.sessions| && j != i
    ensures Sound(DbAfter(sys, i, a), sys.sessions[j])
  {
    var s, t := sys.sessions[i], sys.sessions[j];
    assert Exclusive(s, t) && Apart(s, t);
    if a.Commit? && PlanFits(s.plan) {
      PublishKeepsSound(sys.db, s, t);
    } else if a.Begin? && Atomic(s.env.request) {
      AtomicKeepsSound(sys.db, s.env, t);
    }
  }

  /** A session that ended holds nothing and has nothing pending. */
  lemma EndedIsSound(db: Store, s: Session)
    requires Finished(s) && (s.original.Some? ==> s.env.request.Reverse?)
    ensures Sound(db, s) && Held(s) == [] && PendingRows(s) == [] && !PendingBatch(s)
  {
  }

  /** The stepping session stays sound itself and takes nothing another session has. */
  ghost predicate StepsWell(sys: System, i: nat, a: Action)
    requires Enabled(sys, i, a)
  {
    && Sound(DbAfter(sys, i, a), SessionAfter(sys, i, a))
    && (forall j | 0 <= j < |sys.sessions| && j != i ::
          Exclusive(SessionAfter(sys, i, a), sys.sessions[j]) && Apart(SessionAfter(sys, i, a), sys.sessions[j]))
  }

  lemma BeginStepsWell(sys: System, i: nat)
    requires Core(sys) && Enabled(sys, i, Begin) && Interleaved(sys.sessions[i].env.request)
    ensures StepsWell(sys, i, Begin)
  {
    hide Apply, ReplayOf, FindTx, VerdictOf, Insertable, Validated;
    var s := sys.sessions[i];
    var t := Begun(sys.db, s);
    if Finished(t) {
      EndedIsSound(DbAfter(sys, i, Begin), t);
    } else {
      assert Held(t) == [] && PendingRows(t) == [];
    }
  }

  lemma ReadStepsWell(sys: System, i: nat)
    requires Core(sys) && Enabled(sys, i, Read)
    ensures StepsWell(sys, i, Read)
  {
    hide VerdictOf, Insertable;
    assert Sound(sys.db, sys.sessions[i]);
    var t := Looked(sys.db, sys.sessions[i]);
    if Finished(t) {
      EndedIsSound(sys.db, t);
    } else {
      assert Held(t) == [] && PendingRows(t) == [];
    }
  }

  lemma NothingIsApart(t: Session, other: Session)
    requires Held(t) == [] && PendingRows(t) == [] && !PendingBatch(t)
    ensures Exclusive(t, other) && Apart(t, other)
  {
  }

  lemma OneLockMore(s: Session, t: Session, other: Session, c: Uuid)
    requires Exclusive(s, other) && !Holds(other, c)
    requires Held(t) == Held(s) + [c] && PendingRows(t) == [] && !PendingBatch(t)
    ensures Exclusive(t, other) && Apart(t, other)
  {
    forall d ensures !(Holds(t, d) && Holds(other, d)) {
      assert !(Holds(s, d) && Holds(other, d));
    }
  }

  lemma OneLockIsCurrent(db: Store, s: Session, t: Session, c: Uuid)
    requires Current(db, s) && Active(s) && Active(t) && t.env == s.env && Held(t) == Held(s) + [c]
    requires Owns(db, s.env.tenant, c) && t.copies == s.copies[c := db.customers[c]]
    ensures Current(db, t)
  {
    assert forall d :: Holds(t, d) <==> Holds(s, d) || d == c;
  }

  lemma LockStepsWell(sys: System, i: nat)
    requires Core(sys) && Enabled(sys, i, Lock)
    ensures StepsWell(sys, i, Lock)
  {
    hide Current, Exclusive, Apart, Holds, VerdictOf;
    var s := sys.sessions[i];
    var c, t := Order(s)[s.taken], Locked(sys.db, s);
    assert Sound(sys.db, s);
    if Finished(t) {
      EndedIsSound(sys.db, t);
    } else {
      assert Order(s)[..s.taken + 1] == Order(s)[..s.taken] + [c];
      OneLockIsCurrent(sys.db, s, t, c);
    }
    forall j | 0 <= j < |sys.sessions| && j != i ensures Exclusive(t, sys.sessions[j]) && Apart(t, sys.sessions[j]) {
      if Finished(t) {
        NothingIsApart(t, sys.sessions[j]);
      } else {
        assert !Holds(sys.sessions[j], c);
        OneLockMore(s, t, sys.sessions[j], c);
      }
    }
  }

  lemma ChooseStepsWell(sys: System, i: nat)
    requires Core(sys) && Enabled(sys, i, Choose)
    ensures StepsWell(sys, i, Choose)
  {
    var s := sys.sessions[i];
    var t := Chosen(sys.db, s);
    if Finished(t) {
      EndedIsSound(sys.db, t);
    } else {
      assert Held(t) == Held(s) && PendingRows(t) == [];
      assert Sound(sys.db, s);
      forall j | 0 <= j < |sys.sessions| && j != i ensures Exclusive(t, sys.sessions[j]) && Apart(t, sys.sessions[j]) {
        assert Exclusive(s, sys.sessions[j]);
      }
    }
  }

  lemma RowStillFits(db: Store, s: Session, row: Row)
    requires Insertable(db.ledger, PendingRows(s)) && !RowRefused(db, s, row)
    ensures Insertable(db.ledger, PendingRows(s) + [row])
  {
    var before := db.ledger + PendingRows(s);
    forall k | 0 <= k < |before| ensures !Clash(before[k], row) {
      assert k < |db.ledger| ==> !Clash(row, db.ledger[k]);
      assert k >= |db.ledger| ==> !Clash(row, PendingRows(s)[k - |db.ledger|]);
    }
    InsertOneMore(db.ledger, PendingRows(s), row);
  }

  lemma OneMoreStaysApart(s: Session, t: Session, other: Session, row: Row)
    requires Exclusive(s, other) && Apart(s, other) && !ClashesWith(row, PendingRows(other))
    requires Held(t) == Held(s) && PendingRows(t) == PendingRows(s) + [row] && !PendingBatch(t)
    ensures Exclusive(t, other) && Apart(t, other)
  {
    forall c ensures !(Holds(t, c) && Holds(other, c)) {
      assert !(Holds(s, c) && Holds(other, c));
    }
  }

  lemma InsertRowStepsWell(sys: System, i: nat)
    requires Core(sys) && Enabled(sys, i, InsertRow)
    ensures StepsWell(sys, i, InsertRow)
  {
    hide RowRefused, Insertable, ClashesWith, Exclusive, Apart, Holds;
    var s := sys.sessions[i];
    var row, t := s.plan.rows[s.done], Inserted(sys.db, s);
    if Finished(t) {
      EndedIsSound(sys.db, t);
      assert Sound(sys.db, t);
      forall j | 0 <= j < |sys.sessions| && j != i ensures Exclusive(t, sys.sessions[j]) && Apart(t, sys.sessions[j]) {
        NothingIsApart(t, sys.sessions[j]);
      }
    } else {
      assert Sound(sys.db, s);
      assert PendingRows(t) == PendingRows(s) + [row];
      RowStillFits(sys.db, s, row);
      CurrentAlike(sys.db, s, t);
      assert !PendingBatch(t);
      forall j | 0 <= j < |sys.sessions| && j != i ensures Exclusive(t, sys.sessions[j]) && Apart(t, sys.sessions[j]) {
        assert !ClashesWith(row, PendingRows(sys.sessions[j]));
        OneMoreStaysApart(s, t, sys.sessions[j], row);
      }
    }
  }

  lemma CurrentAlike(db: Store, s: Session, t: Session)
    requires Current(db, s) && t.env == s.env && t.copies == s.copies && Held(t) == Held(s) && (Active(t) ==> Active(s))
    ensures Current(db, t)
  {
    assert forall c :: Holds(t, c) <==> Holds(s, c);
  }

  lemma InsertBatchStepsWell(sys: System, i: nat)
    requires Core(sys) && Enabled(sys, i, InsertBatch)
    ensures StepsWell(sys, i, InsertBatch)
  {
    var s := sys.sessions[i];
    var t := Recorded(sys.db, s);
    if Finished(t) {
      EndedIsSound(sys.db, t);
    } else {
      assert Sound(sys.db, s);
      assert PendingRows(t) == PendingRows(s) && Held(t) == Held(s);
      forall j | 0 <= j < |sys.sessions| && j != i ensures Exclusive(t, sys.sessions[j]) && Apart(t, sys.sessions[j]) {
        assert Exclusive(s, sys.sessions[j]) && Apart(s, sys.sessions[j]);
      }
    }
  }

  lemma EndStepsWell(sys: System, i: nat, a: Action)
    requires Core(sys) && Enabled(sys, i, a) && (a.Commit? || a.Abort?)
    ensures StepsWell(sys, i, a)
  {
    assert Sound(sys.db, sys.sessions[i]);
    EndedIsSound(DbAfter(sys, i, a), SessionAfter(sys, i, a));
  }

  /** Every step of every session keeps locks exclusive, reads current and pending keys unique. */
  lemma StepKeepsCore(sys: System, i: nat, a: Action)
    requires Core(sys) && Enabled(sys, i, a) && Interleaved(sys.sessions[i].env.request)
    ensures Core(After(sys, i, a))
  {
    match a {
      case Begin => BeginStepsWell(sys, i);
      case Read => ReadStepsWell(sys, i);
      case Lock => LockStepsWell(sys, i);
      case Choose => ChooseStepsWell(sys, i);
      case InsertRow => InsertRowStepsWell(sys, i);
      case InsertBatch => InsertBatchStepsWell(sys, i);
      case Commit => EndStepsWell(sys, i, a);
      case Abort => EndStepsWell(sys, i, a);
    }
    CoreFromStep(sys, i, a);
  }

  lemma CoreFromStep(sys: System, i: nat, a: Action)
    requires Core(sys) && i < |sys.sessions| && Enabled(sys, i, a) && StepsWell(sys, i, a)
    ensures Core(After(sys, i, a))
  {
    hide Sound, Exclusive, Apart, SessionAfter, DbAfter, Enabled;
    var next := After(sys, i, a);
    forall j | 0 <= j < |next.sessions| ensures Sound(next.db, next.sessions[j]) {
      if j != i {
        OthersStaySound(sys, i, a, j);
      }
    }
    forall j, k | 0 <= j < |next.sessions| && 0 <= k < |next.sessions| && j != k
      ensures Exclusive(next.sessions[j], next.sessions[k]) && Apart(next.sessions[j], next.sessions[k])
    {
      if k == i {
        BothWays(next.sessions[i], next.sessions[j]);
      }
    }
  }

  lemma BothWays(a: Session, b: Session)
    requires Exclusive(a, b) && Apart(a, b)
    ensures Exclusive(b, a) && Apart(b, a)
  {
  }

  // ─── At most once ──────────────────────────────────────────────────────

  /** Two requests under one unique key: both ledger requests, whatever their kind, or both batches. */
  predicate SameKey(a: Env, b: Env) {
    && a.tenant == b.tenant
    && ((HasLedgerKey(a.request) && HasLedgerKey(b.request)) || (a.request.Inflate? && b.request.Inflate?))
    && a.request.key == b.request.key
  }

  /** The request's key is in its committed table. */
  ghost predicate OnFile(db: Store, e: Env) {
    if HasLedgerKey(e.request) then
      exists k :: 0 <= k < |db.ledger| && db.ledger[k].tenant == e.tenant && db.ledger[k].key == e.request.key
    else if e.request.Inflate? then (e.tenant, e.request.key) in db.batches
    else true
  }

  ghost predicate Once(sys: System) {
    && (forall i | 0 <= i < |sys.sessions| && sys.sessions[i].posted :: OnFile(sys.db, sys.sessions[i].env))
    && (forall i, j | 0 <= i < |sys.sessions| && 0 <= j < |sys.sessions| && i != j ::
          !(sys.sessions[i].posted && sys.sessions[j].posted && SameKey(sys.sessions[i].env, sys.sessions[j].env)))
  }

  lemma OnFileForEver(sys: System, i: nat, a: Action, e: Env)
    requires Enabled(sys, i, a) && OnFile(sys.db, e)
    ensures OnFile(DbAfter(sys, i, a), e)
  {
    var s, db' := sys.sessions[i], DbAfter(sys, i, a);
    if a.Begin? && Atomic(s.env.request) {
      AtomicKeepsKeys(sys.db, s.env);
    }
    if HasLedgerKey(e.request) {
      var k :| 0 <= k < |sys.db.ledger| && sys.db.ledger[k].tenant == e.tenant && sys.db.ledger[k].key == e.request.key;
      assert db'.ledger[k].tenant == e.tenant && db'.ledger[k].key == e.request.key;
    }
  }

  /** The first row of a plan carries the client's key. */
  lemma PlanCarriesKey(s: Session)
    requires OnTrack(s) && s.phase.Writing? && HasLedgerKey(s.env.request)
    ensures |s.plan.rows| >= 1 && s.plan.rows[0].tenant == s.env.tenant && s.plan.rows[0].key == s.env.request.key
  {
  }

  /** A session ready to commit under a key finds the key free, and puts it on file. */
  lemma CommitClaimsKey(db: Store, s: Session)
    requires Sound(db, s) && s.phase.Writing? && (HasLedgerKey(s.env.request) || s.env.request.Inflate?)
    requires s.done == |s.plan.rows| && (s.plan.batch.Some? ==> s.recorded)
    ensures !OnFile(db, s.env) && OnFile(Publish(db, s), s.env)
  {
    if HasLedgerKey(s.env.request) {
      PlanCarriesKey(s);
      var row, after := s.plan.rows[0], Publish(db, s).ledger;
      assert PendingRows(s) == s.plan.rows;
      assert after[|db.ledger|] == row;
      forall k | 0 <= k < |db.ledger|
          ensures !(db.ledger[k].tenant == s.env.tenant && db.ledger[k].key == s.env.request.key) {
        assert !Clash(db.ledger[k], row);
      }
    }
  }

  lemma SameKeySameFile(db: Store, e: Env, f: Env)
    requires SameKey(e, f)
    ensures OnFile(db, e) <==> OnFile(db, f)
  {
  }

  /** Only a commit posts, and only under a key that was free. */
  lemma PostsUnderFreeKey(sys: System, i: nat, a: Action)
    requires Core(sys) && i < |sys.sessions| && Enabled(sys, i, a)
    requires SessionAfter(sys, i, a).posted && !sys.sessions[i].posted
    ensures !OnFile(sys.db, sys.sessions[i].env) && OnFile(DbAfter(sys, i, a), sys.sessions[i].env)
  {
    hide OnFile, Apply, Sound;
    assert a.Commit? && PlanFits(sys.sessions[i].plan);
    CommitClaimsKey(sys.db, sys.sessions[i]);
  }

  lemma StepKeepsOnce(sys: System, i: nat, a: Action)
    requires Core(sys) && Once(sys) && i < |sys.sessions| && Enabled(sys, i, a)
    ensures Once(After(sys, i, a))
  {
    hide OnFile, SameKey, Core, SessionAfter, DbAfter, Enabled;
    var s, next := sys.sessions[i], After(sys, i, a);
    SessionKeepsEnv(sys, i, a);
    forall j | 0 <= j < |sys.sessions| && sys.sessions[j].posted ensures OnFile(next.db, sys.sessions[j].env) {
      OnFileForEver(sys, i, a, sys.sessions[j].env);
    }
    if next.sessions[i].posted && !s.posted {
      PostsUnderFreeKey(sys, i, a);
      forall j | 0 <= j < |sys.sessions| && sys.sessions[j].posted
        ensures !SameKey(s.env, sys.sessions[j].env) && !SameKey(sys.sessions[j].env, s.env)
      {
        SameKeySymmetric(s.env, sys.sessions[j].env);
        if SameKey(s.env, sys.sessions[j].env) {
          SameKeySameFile(sys.db, s.env, sys.sessions[j].env);
        }
      }
    }
  }

  lemma SessionKeepsEnv(sys: System, i: nat, a: Action)
    requires i < |sys.sessions| && Enabled(sys, i, a)
    ensures SessionAfter(sys, i, a).env == sys.sessions[i].env
  {
    hide Apply;
  }

  lemma LookedIsRead(db: Store, s: Session)
    requires s.env.request.Reverse? && Active(Looked(db, s))
    ensures var t := Looked(db, s);
            && t.original == FindTx(db.ledger, s.env.tenant, s.env.request.target)
            && t.original.Some? && !t.original.value.reversed
  {
    hide FindTx;
  }

  lemma BegunReadsNothing(db: Store, s: Session)
    requires s.phase.Waiting? && s.env.request.Reverse?
    ensures !Active(Begun(db, s))
  {
    hide ReplayOf, Apply;
  }

  /** Only a reversal's read changes what it has read. */
  lemma OthersReadNothing(sys: System, i: nat, a: Action)
    requires i < |sys.sessions| && Enabled(sys, i, a) && !a.Begin? && !a.Read?
    requires Active(SessionAfter(sys, i, a))
    ensures Active(sys.sessions[i]) && SessionAfter(sys, i, a).original == sys.sessions[i].original
  {
    hide Begun, Looked, VerdictOf, RowRefused, RowsToMove, LockBusy, RowBusy, BatchBusy, PlanFits, Order;
  }

  /** A running reversal has what it read from its read on, and its steps short of the commit leave the
      tables alone. */
  lemma OriginalIsRead(sys: System, i: nat, a: Action)
    requires i < |sys.sessions| && Enabled(sys, i, a) && sys.sessions[i].env.request.Reverse?
    requires Active(SessionAfter(sys, i, a))
    ensures var s, t := sys.sessions[i], SessionAfter(sys, i, a);
            && t.env == s.env && DbAfter(sys, i, a) == sys.db
            && (if a.Read? then
                  && t.original == FindTx(sys.db.ledger, s.env.tenant, s.env.request.target)
                  && t.original.Some? && !t.original.value.reversed
                else Active(s) && t.original == s.original)
  {
    hide Apply, Publish, FindTx, Begun, Looked, Locked, Chosen, Inserted, Recorded, LockBusy, RowBusy, BatchBusy,
      PlanFits, Order;
    SessionKeepsEnv(sys, i, a);
    match a {
      case Begin => BegunReadsNothing(sys.db, sys.sessions[i]);
      case Read => LookedIsRead(sys.db, sys.sessions[i]);
      case Lock => OthersReadNothing(sys, i, a);
      case Choose => OthersReadNothing(sys, i, a);
      case InsertRow => OthersReadNothing(sys, i, a);
      case InsertBatch => OthersReadNothing(sys, i, a);
      case Commit =>
      case Abort =>
    }
  }

  lemma SameKeySymmetric(e: Env, f: Env)
    ensures SameKey(e, f) == SameKey(f, e)
  {
  }

  // ─── Every interleaving ────────────────────────────────────────────────

  ghost predicate Serving(sys: System, es: seq<Env>) {
    |sys.sessions| == |es| && forall i | 0 <= i < |es| :: sys.sessions[i].env == es[i]
  }

  ghost predicate AllInterleaved(es: seq<Env>) {
    forall i | 0 <= i < |es| :: Interleaved(es[i].request)
  }

  lemma StepKeepsServing(sys: System, i: nat, a: Action, es: seq<Env>)
    requires Serving(sys, es) && i < |sys.sessions| && Enabled(sys, i, a)
    ensures Serving(After(sys, i, a), es)
  {
    hide SessionAfter, DbAfter, Enabled;
    SessionKeepsEnv(sys, i, a);
  }

  lemma StartIsCore(db: Store, es: seq<Env>)
    ensures Core(Start(db, es)) && Once(Start(db, es)) && Serving(Start(db, es), es)
  {
  }

  /** In every interleaving locks are exclusive, locked rows are current, pending keys are unique,
      and no key has taken effect twice. */
  lemma {:induction false} ReachedIsCore(db: Store, es: seq<Env>, steps: seq<Step>)
    requires AllInterleaved(es) && Allowed(Start(db, es), steps)
    ensures var sys := Reached(Start(db, es), steps); Core(sys) && Once(sys) && Serving(sys, es)
  {
    hide Core, Once, After;
    if steps == [] {
      StartIsCore(db, es);
    } else {
      var n := |steps| - 1;
      var sys := Reached(Start(db, es), steps[..n]);
      ReachedIsCore(db, es, steps[..n]);
      assert Interleaved(es[steps[n].session].request);
      StepKeepsCore(sys, steps[n].session, steps[n].action);
      StepKeepsOnce(sys, steps[n].session, steps[n].action);
      StepKeepsServing(sys, steps[n].session, steps[n].action, es);
    }
  }

  /** At most once, in every interleaving: of all sessions under the same tenant and key, debt,
      payment, mixed payment, forgiveness and reversal alike, or of all batches under the same
      batch key, at most one ever commits its effect. */
  lemma AtMostOnce(db: Store, es: seq<Env>, steps: seq<Step>, i: nat, j: nat)
    requires AllInterleaved(es) && Allowed(Start(db, es), steps)
    requires i < |es| && j < |es| && SameKey(es[i], es[j])
    requires var sys := Reached(Start(db, es), steps);
             |sys.sessions| == |es| && sys.sessions[i].posted && sys.sessions[j].posted
    ensures i == j
  {
    hide Core;
    ReachedIsCore(db, es, steps);
  }
}
