/** Subscription billing: webhook deliveries that extend a tenant's subscription, each payment once,
    in any interleaving and with any duplication. */
module Billing {
  import opened Domain

  const PERIOD_DAYS := 30

  datatype TenantStatus = TRIAL | ACTIVE | PAST_DUE | SUSPENDED | CANCELLED

  /** The subscription columns of a tenant; days are calendar days. */
  datatype Account = Account(expires: Option<int>, status: TenantStatus)

  /** `subscriber` is the tenant that a subscription id resolves to; `events` holds the recorded
      payments, keyed by their unique external id, with the tenant they were credited to. */
  datatype Db = Db(subscriber: map<Uuid, Uuid>, accounts: map<Uuid, Account>, events: map<Uuid, Uuid>)

  /** One webhook delivery, processed on day `now`. */
  datatype Delivery = Delivery(payment: Uuid, subscription: Uuid, now: int)

  function Payer(db: Db, d: Delivery): (r: Option<Uuid>)
    ensures r.Some? ==> r.value in db.accounts
  {
    if d.subscription in db.subscriber && db.subscriber[d.subscription] in db.accounts
    then Some(db.subscriber[d.subscription]) else None
  }

  function Extended(a: Account, now: int): Account {
    Account(Some((if a.expires.Some? then a.expires.value else now) + PERIOD_DAYS), ACTIVE)
  }

  function Credit(db: Db, d: Delivery, tenant: Uuid, a: Account): Db {
    db.(accounts := db.accounts[tenant := Extended(a, d.now)], events := db.events[d.payment := tenant])
  }

  /** A delivery as one atomic step. */
  function Process(db: Db, d: Delivery): Db {
    if d.payment in db.events || Payer(db, d).None? then db
    else Credit(db, d, Payer(db, d).value, db.accounts[Payer(db, d).value])
  }

  function Serve(db: Db, ds: seq<Delivery>): Db {
    if ds == [] then db else Process(Serve(db, ds[..|ds| - 1]), ds[|ds| - 1])
  }

  /** The tables after a delivery, in terms of the tables alone. A payment that is recorded already, or
      whose subscription no existing tenant has, changes nothing. Any other is recorded under the
      tenant that has its subscription, who becomes ACTIVE for thirty days from the stored expiry, or
      from today without one; no other account changes. */
  predicate Processed(before: Db, d: Delivery, after: Db) {
    if d.payment in before.events || d.subscription !in before.subscriber
       || before.subscriber[d.subscription] !in before.accounts then
      after == before
    else
      var tenant := before.subscriber[d.subscription];
      var start := match before.accounts[tenant].expires case None => d.now case Some(day) => day;
      && after.subscriber == before.subscriber
      && after.events == before.events[d.payment := tenant]
      && after.accounts == before.accounts[tenant := Account(Some(start + 30), ACTIVE)]
  }

  lemma ProcessMeans(db: Db, d: Delivery)
    ensures Processed(db, d, Process(db, d))
  {
  }

  // ─── The service ───────────────────────────────────────────────────────

  class BillingService {
    /** The committed tables, and the two that the open transaction writes. */
    var committed: Db
    var accounts: map<Uuid, Account>
    var events: map<Uuid, Uuid>

    constructor (db: Db)
      ensures committed == db
    {
      committed, accounts, events := db, db.accounts, db.events;
    }

    /** Processes a delivery completely, or, when write number `fault` fails, not at all. */
    method ProcessPayment(d: Delivery, fault: Option<nat>) returns (ok: bool)
      modifies this
      ensures committed == if ok then Process(old(committed), d) else old(committed)
      ensures ok ==> Processed(old(committed), d, committed)
      ensures !ok ==> fault.Some?
    {
      ProcessMeans(committed, d);
      accounts, events := committed.accounts, committed.events;
      if d.payment in events {
        return true;
      }
      var tenantId := Payer(committed, d);
      if tenantId.Some? {
        if fault == Some(0) {
          return false;
        }
        events := events[d.payment := tenantId.value];
        var tenant := accounts[tenantId.value];
        var currentExpiration := if tenant.expires.Some? then tenant.expires.value else d.now;
        var newExpiration := currentExpiration + PERIOD_DAYS;
        tenant := tenant.(status := ACTIVE);
        tenant := tenant.(expires := Some(newExpiration));
        if fault == Some(1) {
          return false;
        }
        accounts := accounts[tenantId.value := tenant];
      }
      committed := committed.(accounts := accounts, events := events);
      return true;
    }
  }

  // ─── What a serial run credits ─────────────────────────────────────────

  /** The payments credited to a tenant since `before`. */
  function Credits(before: Db, after: Db, tenant: Uuid): set<Uuid> {
    set p | p in after.events && p !in before.events && after.events[p] == tenant
  }

  /** The delivery's subscription is the tenant's. */
  predicate PaysFor(db: Db, d: Delivery, tenant: Uuid) {
    d.subscription in db.subscriber && db.subscriber[d.subscription] == tenant
  }

  /** The day the extensions start from: the stored expiry, or else the day the first credited
      payment was processed. */
  function Base(db: Db, ds: seq<Delivery>, tenant: Uuid): Option<int>
    requires tenant in db.accounts
  {
    if db.accounts[tenant].expires.Some? then db.accounts[tenant].expires
    else if ds == [] then None
    else
      var n := |ds| - 1;
      var sofar, at := Base(db, ds[..n], tenant), Serve(db, ds[..n]);
      if sofar.None? && ds[n].payment !in at.events && PaysFor(db, ds[n], tenant) then Some(ds[n].now) else sofar
  }

  lemma {:induction false} ServeKeeps(db: Db, ds: seq<Delivery>)
    ensures Serve(db, ds).subscriber == db.subscriber && Serve(db, ds).accounts.Keys == db.accounts.Keys
    ensures forall p | p in db.events :: p in Serve(db, ds).events && Serve(db, ds).events[p] == db.events[p]
  {
    if ds != [] {
      ServeKeeps(db, ds[..|ds| - 1]);
    }
  }

  /** After any serial run the expiry is the base plus thirty days per distinct credited payment;
      without a credited payment the account is as it was. */
  lemma {:induction false} SerialExtension(db: Db, ds: seq<Delivery>, tenant: Uuid)
    requires tenant in db.accounts
    ensures var after := Serve(db, ds);
            && tenant in after.accounts
            && (if Credits(db, after, tenant) == {} then after.accounts[tenant] == db.accounts[tenant]
                else
                  && Base(db, ds, tenant).Some?
                  && after.accounts[tenant]
                     == Account(Some(Base(db, ds, tenant).value + 30 * |Credits(db, after, tenant)|), ACTIVE))
            && (Base(db, ds, tenant).None? ==> Credits(db, after, tenant) == {})
            && (Base(db, ds, tenant).Some? && db.accounts[tenant].expires.None? ==> Credits(db, after, tenant) != {})
  {
    if ds == [] {
      assert Credits(db, db, tenant) == {};
    } else {
      hide Credits, Process, PaysFor;
      var n := |ds| - 1;
      var at, d := Serve(db, ds[..n]), ds[n];
      SerialExtension(db, ds[..n], tenant);
      ServeKeeps(db, ds[..n]);
      ProcessExtends(db, at, d, tenant);
    }
  }

  /** A delivery of the payment whose subscription is the tenant's. */
  ghost predicate PaidFor(db: Db, ds: seq<Delivery>, payment: Uuid, tenant: Uuid) {
    exists k :: 0 <= k < |ds| && ds[k].payment == payment && PaysFor(db, ds[k], tenant)
  }

  /** After any serial run every new payment is recorded under the tenant that one of its deliveries
      names, and every delivery that names an existing tenant has its payment recorded. */
  lemma {:induction false} SerialRecords(db: Db, ds: seq<Delivery>)
    ensures var after := Serve(db, ds);
            && (forall p | p in after.events && p !in db.events :: PaidFor(db, ds, p, after.events[p]))
            && (forall k | 0 <= k < |ds| && ds[k].subscription in db.subscriber
                           && db.subscriber[ds[k].subscription] in db.accounts :: ds[k].payment in after.events)
  {
    if ds != [] {
      var n := |ds| - 1;
      var at, after := Serve(db, ds[..n]), Serve(db, ds);
      SerialRecords(db, ds[..n]);
      ServeKeeps(db, ds[..n]);
      ProcessMeans(at, ds[n]);
      forall p | p in after.events && p !in db.events ensures PaidFor(db, ds, p, after.events[p]) {
        if p in at.events {
          var k :| 0 <= k < n && ds[..n][k].payment == p && PaysFor(db, ds[..n][k], at.events[p]);
          assert ds[k] == ds[..n][k];
        } else {
          assert ds[n].payment == p;
        }
      }
      forall k | 0 <= k < |ds| && ds[k].subscription in db.subscriber
                 && db.subscriber[ds[k].subscription] in db.accounts
        ensures ds[k].payment in after.events
      {
        if k < n {
          assert ds[..n][k] == ds[k];
        }
      }
    }
  }

  /** What one more delivery does to one tenant: thirty days for a new payment of its subscription. */
  lemma ProcessExtends(db: Db, at: Db, d: Delivery, tenant: Uuid)
    requires tenant in at.accounts && at.subscriber == db.subscriber && forall p | p in db.events :: p in at.events
    ensures var after, paid := Process(at, d), d.payment !in at.events && PaysFor(db, d, tenant);
            var a := at.accounts[tenant];
            && tenant in after.accounts
            && after.accounts[tenant]
               == (if paid then Account(Some((if a.expires.Some? then a.expires.value else d.now) + 30), ACTIVE) else a)
            && Credits(db, after, tenant) == Credits(db, at, tenant) + (if paid then {d.payment} else {})
            && (paid ==> d.payment !in Credits(db, at, tenant))
  {
  }

  // ─── Interleaved deliveries ────────────────────────────────────────────

  datatype Phase = Waiting | Locking | Holding | Inserted | Done | Failed

  /** One delivery on its own connection: the tenant it resolved, the row it read under the
      lock, and whether its commit credited the payment. */
  datatype Session = Session(d: Delivery, phase: Phase, tenant: Uuid, copy: Account, credited: bool)

  datatype System = System(db: Db, sessions: seq<Session>, log: seq<Delivery>)

  const NO_ACCOUNT := Account(None, TRIAL)

  function Start(db: Db, ds: seq<Delivery>): System {
    System(db, seq(|ds|, i requires 0 <= i < |ds| => Session(ds[i], Waiting, 0, NO_ACCOUNT, false)), [])
  }

  predicate Holds(s: Session, tenant: Uuid) {
    (s.phase.Holding? || s.phase.Inserted?) && s.tenant == tenant
  }

  predicate HasInserted(s: Session, payment: Uuid) {
    s.phase.Inserted? && s.d.payment == payment
  }

  datatype Action = Check | Lock | Insert | Commit | Abort

  ghost predicate Enabled(sys: System, i: nat, a: Action) {
    i < |sys.sessions| &&
    var s := sys.sessions[i];
    match a
    case Check => s.phase.Waiting?
    case Lock =>
      s.phase.Locking? && s.tenant in sys.db.accounts
      && forall j | 0 <= j < |sys.sessions| && j != i :: !Holds(sys.sessions[j], s.tenant)
    case Insert =>
      s.phase.Holding? && forall j | 0 <= j < |sys.sessions| && j != i :: !HasInserted(sys.sessions[j], s.d.payment)
    case Commit => s.phase.Inserted?
    case Abort => s.phase.Locking? || s.phase.Holding? || s.phase.Inserted?
  }

  function SessionAfter(db: Db, s: Session, a: Action): Session
    requires a.Lock? ==> s.tenant in db.accounts
  {
    match a
    case Check =>
      if s.d.payment in db.events || Payer(db, s.d).None? then s.(phase := Done)
      else s.(phase := Locking, tenant := Payer(db, s.d).value)
    case Lock => s.(phase := Holding, copy := db.accounts[s.tenant])
    case Insert => if s.d.payment in db.events then s.(phase := Failed) else s.(phase := Inserted)
    case Commit => s.(phase := Done, credited := true)
    case Abort => s.(phase := Failed)
  }

  /** One step; a commit publishes what the session computed from the row it read. */
  ghost function After(sys: System, i: nat, a: Action): System
    requires Enabled(sys, i, a)
  {
    var s := sys.sessions[i];
    var t := SessionAfter(sys.db, s, a);
    if a.Commit? then System(Credit(sys.db, s.d, s.tenant, s.copy), sys.sessions[i := t], sys.log + [s.d])
    else sys.(sessions := sys.sessions[i := t])
  }

  ghost predicate Sound(db: Db, s: Session) {
    && (s.phase.Locking? || s.phase.Holding? || s.phase.Inserted? ==> Payer(db, s.d) == Some(s.tenant) && !s.credited)
    && (s.phase.Waiting? ==> !s.credited)
    && (s.phase.Holding? || s.phase.Inserted? ==> s.copy == db.accounts[s.tenant])
    && (s.phase.Inserted? ==> s.d.payment !in db.events)
    && (s.phase.Done? ==> s.d.payment in db.events || Payer(db, s.d).None?)
    && (s.credited ==> s.d.payment in db.events && Payer(db, s.d) == Some(db.events[s.d.payment]))
  }

  ghost predicate Exclusive(a: Session, b: Session) {
    && !(exists t :: Holds(a, t) && Holds(b, t))
    && !(a.phase.Inserted? && HasInserted(b, a.d.payment))
    && !(a.credited && b.credited && a.d.payment == b.d.payment)
  }

  ghost predicate Core(sys: System) {
    && (forall i | 0 <= i < |sys.sessions| :: Sound(sys.db, sys.sessions[i]))
    && (forall i, j | 0 <= i < |sys.sessions| && 0 <= j < |sys.sessions| && i != j ::
          Exclusive(sys.sessions[i], sys.sessions[j]))
  }

  /** A step is taken by one session while the locks and the unique index allow it. */
  ghost predicate Next(sys: System, next: System) {
    exists i: nat, a :: Enabled(sys, i, a) && next == After(sys, i, a)
  }

  lemma OtherStaysSound(sys: System, i: nat, a: Action, j: nat)
    requires Core(sys) && Enabled(sys, i, a)
    requires j < |sys.sessions| && j != i
    ensures Sound(After(sys, i, a).db, sys.sessions[j])
  {
    var s, t := sys.sessions[i], sys.sessions[j];
    assert Sound(sys.db, s) && Sound(sys.db, t) && Exclusive(s, t) && Exclusive(t, s);
    if a.Commit? {
      assert Holds(s, s.tenant);
    }
  }

  lemma StepKeepsCore(sys: System, i: nat, a: Action)
    requires Core(sys) && Enabled(sys, i, a)
    ensures Core(After(sys, i, a))
  {
    var next, s := After(sys, i, a), sys.sessions[i];
    assert Sound(sys.db, s);
    forall j | 0 <= j < |next.sessions| ensures Sound(next.db, next.sessions[j]) {
      if j != i {
        OtherStaysSound(sys, i, a, j);
      }
    }
    forall j | 0 <= j < |next.sessions| && j != i
      ensures Exclusive(next.sessions[i], next.sessions[j]) && Exclusive(next.sessions[j], next.sessions[i])
    {
      var t := sys.sessions[j];
      assert Exclusive(s, t) && Exclusive(t, s) && Sound(sys.db, t);
    }
  }

  /** A commit is the atomic step, whatever happened between its first statement and its last. */
  lemma CommitIsProcess(sys: System, i: nat)
    requires Core(sys) && Enabled(sys, i, Commit)
    ensures After(sys, i, Commit).db == Process(sys.db, sys.sessions[i].d)
  {
    assert Sound(sys.db, sys.sessions[i]);
  }

  ghost predicate Execution(states: seq<System>) {
    |states| > 0 && forall k | 0 <= k < |states| - 1 :: Next(states[k], states[k + 1])
  }

  /** The payments credited to a tenant by sessions that committed. */
  ghost predicate CreditedOnce(db0: Db, sys: System) {
    forall p :: p in sys.db.events && p !in db0.events <==>
      exists i :: 0 <= i < |sys.sessions| && sys.sessions[i].credited && sys.sessions[i].d.payment == p
  }

  lemma StepKeepsCredited(db0: Db, sys: System, i: nat, a: Action)
    requires Core(sys) && Enabled(sys, i, a)
    requires CreditedOnce(db0, sys) && forall p | p in db0.events :: p in sys.db.events
    ensures CreditedOnce(db0, After(sys, i, a))
    ensures forall p | p in db0.events :: p in After(sys, i, a).db.events
  {
    var next, s := After(sys, i, a), sys.sessions[i];
    assert Sound(sys.db, s);
    forall p ensures p in next.db.events && p !in db0.events <==>
      exists j :: 0 <= j < |next.sessions| && next.sessions[j].credited && next.sessions[j].d.payment == p
    {
      if j: int :| 0 <= j < |sys.sessions| && sys.sessions[j].credited && sys.sessions[j].d.payment == p {
        assert next.sessions[j].credited && next.sessions[j].d.payment == p;
      }
      if a.Commit? && p == s.d.payment {
        assert next.sessions[i].credited && next.sessions[i].d.payment == p;
      }
    }
  }

  lemma {:induction false} EveryExecution(db: Db, ds: seq<Delivery>, states: seq<System>)
    requires Execution(states) && states[0] == Start(db, ds)
    ensures var sys := states[|states| - 1];
            && Core(sys) && sys.db == Serve(db, sys.log) && CreditedOnce(db, sys)
            && forall p | p in db.events :: p in sys.db.events
    decreases |states|
  {
    var n := |states| - 1;
    if n > 0 {
      EveryExecution(db, ds, states[..n]);
      var sys := states[n - 1];
      assert Next(states[n - 1], states[n]);
      var i: nat, a :| Enabled(sys, i, a) && states[n] == After(sys, i, a);
      StepKeepsCore(sys, i, a);
      StepKeepsCredited(db, sys, i, a);
      if a.Commit? {
        CommitIsProcess(sys, i);
        assert states[n].log[..|sys.log|] == sys.log;
      }
    }
  }

  /** Subscription extension: for any interleaving and duplication of deliveries, aborts included,
      a tenant's expiry is the base plus thirty days per distinct payment credited to it, and
      those payments are exactly the ones some delivery committed, each by one delivery only;
      every delivery answered with success has its payment recorded, unless its subscription is
      not mapped to a tenant. */
  lemma ExtensionPerPayment(db: Db, ds: seq<Delivery>, states: seq<System>, tenant: Uuid)
    requires Execution(states) && states[0] == Start(db, ds) && tenant in db.accounts
    ensures var sys := states[|states| - 1];
            var credits := Credits(db, sys.db, tenant);
            && tenant in sys.db.accounts
            && (credits == {} ==> sys.db.accounts[tenant] == db.accounts[tenant])
            && (credits != {} ==>
                  && Base(db, sys.log, tenant).Some?
                  && sys.db.accounts[tenant]
                     == Account(Some(Base(db, sys.log, tenant).value + 30 * |credits|), ACTIVE))
            && (forall i | 0 <= i < |sys.sessions| && sys.sessions[i].phase.Done? ::
                  var d := sys.sessions[i].d;
                  d.payment in sys.db.events || d.subscription !in db.subscriber
                  || db.subscriber[d.subscription] !in db.accounts)
            && (forall i | 0 <= i < |sys.sessions| && sys.sessions[i].credited ::
                  var d := sys.sessions[i].d;
                  d.payment in sys.db.events && PaysFor(db, d, sys.db.events[d.payment]))
            && (forall p :: p in sys.db.events && p !in db.events <==>
                  exists i :: 0 <= i < |sys.sessions| && sys.sessions[i].credited && sys.sessions[i].d.payment == p)
            && (forall i, j | 0 <= i < |sys.sessions| && 0 <= j < |sys.sessions| && i != j ::
                  !(sys.sessions[i].credited && sys.sessions[j].credited
                    && sys.sessions[i].d.payment == sys.sessions[j].d.payment))
  {
    hide Credits, Base, Serve, Start, Holds, HasInserted;
    EveryExecution(db, ds, states);
    var sys := states[|states| - 1];
    SerialExtension(db, sys.log, tenant);
    ServeKeeps(db, sys.log);
    assert forall i, j | 0 <= i < |sys.sessions| && 0 <= j < |sys.sessions| && i != j ::
      Exclusive(sys.sessions[i], sys.sessions[j]);
    assert forall i | 0 <= i < |sys.sessions| :: Sound(sys.db, sys.sessions[i]);
  }

  /** With a stored expiry the order of processing does not matter: two executions that credit
      the same payments to a tenant leave the same expiry. */
  lemma OrderIrrelevant(db: Db, ds: seq<Delivery>, states: seq<System>, es: seq<Delivery>, others: seq<System>,
      tenant: Uuid)
    requires Execution(states) && states[0] == Start(db, ds) && Execution(others) && others[0] == Start(db, es)
    requires tenant in db.accounts && db.accounts[tenant].expires.Some?
    requires Credits(db, states[|states| - 1].db, tenant) == Credits(db, others[|others| - 1].db, tenant)
    ensures states[|states| - 1].db.accounts.Keys == db.accounts.Keys == others[|others| - 1].db.accounts.Keys
    ensures states[|states| - 1].db.accounts[tenant] == others[|others| - 1].db.accounts[tenant]
  {
    hide Credits, Serve, Core, CreditedOnce, Start;
    EveryExecution(db, ds, states);
    EveryExecution(db, es, others);
    ServeKeeps(db, states[|states| - 1].log);
    ServeKeeps(db, others[|others| - 1].log);
    SerialExtension(db, states[|states| - 1].log, tenant);
    SerialExtension(db, others[|others| - 1].log, tenant);
  }

  // ─── Every serial run is an execution ──────────────────────────────────

  lemma OneMoreState(states: seq<System>, i: nat, a: Action)
    requires Execution(states) && Enabled(states[|states| - 1], i, a)
    ensures Execution(states + [After(states[|states| - 1], i, a)])
  {
    var last := states[|states| - 1];
    var more := states + [After(last, i, a)];
    forall k | 0 <= k < |more| - 1 ensures Next(more[k], more[k + 1]) {
      if k < |states| - 1 {
        assert Next(states[k], states[k + 1]);
      } else {
        assert more[k] == last && more[k + 1] == After(last, i, a);
      }
    }
  }

  /** The first `n` deliveries are done and no other has begun. */
  ghost predicate DoneUpTo(db: Db, ds: seq<Delivery>, sys: System, n: nat)
    requires n <= |ds|
  {
    && |sys.sessions| == |ds| && sys.db == Serve(db, ds[..n])
    && (forall k | 0 <= k < n :: sys.sessions[k].phase.Done?)
    && (forall k | n <= k < |ds| :: sys.sessions[k] == Session(ds[k], Waiting, 0, NO_ACCOUNT, false))
  }

  lemma DeliverAlone(db: Db, ds: seq<Delivery>, states: seq<System>, n: nat) returns (more: seq<System>)
    requires Execution(states) && n < |ds| && DoneUpTo(db, ds, states[|states| - 1], n)
    ensures Execution(more) && more[0] == states[0] && DoneUpTo(db, ds, more[|more| - 1], n + 1)
  {
    hide Next, Serve, Extended;
    var sys := states[|states| - 1];
    assert ds[..n + 1][..n] == ds[..n];
    ServesOneMore(db, ds, n);
    OneMoreState(states, n, Check);
    more := states + [After(sys, n, Check)];
    if After(sys, n, Check).sessions[n].phase.Locking? {
      var a := After(sys, n, Check);
      OneMoreState(more, n, Lock);
      var b := After(a, n, Lock);
      OneMoreState(more + [b], n, Insert);
      var c := After(b, n, Insert);
      OneMoreState(more + [b] + [c], n, Commit);
      more := more + [b] + [c] + [After(c, n, Commit)];
    }
  }

  lemma ServesOneMore(db: Db, ds: seq<Delivery>, n: nat)
    requires n < |ds|
    ensures Serve(db, ds[..n + 1]) == Process(Serve(db, ds[..n]), ds[n])
  {
    assert ds[..n + 1][..n] == ds[..n];
  }

  lemma {:induction false} DeliverUpTo(db: Db, ds: seq<Delivery>, n: nat) returns (states: seq<System>)
    requires n <= |ds|
    ensures Execution(states) && states[0] == Start(db, ds) && DoneUpTo(db, ds, states[|states| - 1], n)
  {
    if n == 0 {
      states := [Start(db, ds)];
    } else {
      hide Next, DoneUpTo, Start;
      var before := DeliverUpTo(db, ds, n - 1);
      states := DeliverAlone(db, ds, before, n - 1);
    }
  }

  /** Any deliveries can be processed one after the other: some execution ends with all of them
      answered with success and the tables of the serial run. */
  lemma SerialIsExecution(db: Db, ds: seq<Delivery>)
    ensures exists states: seq<System> ::
      && Execution(states) && states[0] == Start(db, ds)
      && var sys := states[|states| - 1];
      && |sys.sessions| == |ds| && sys.db == Serve(db, ds)
      && forall k | 0 <= k < |ds| :: sys.sessions[k].phase.Done?
  {
    hide Next, Start, Serve;
    assert ds[..|ds|] == ds;
    var states := DeliverUpTo(db, ds, |ds|);
    assert Execution(states) && states[0] == Start(db, ds) && DoneUpTo(db, ds, states[|states| - 1], |ds|);
  }
}
