/** What each service call does to the tables, as one atomic step, and runs of such steps. */
module Engine {
  import opened Domain
  import opened Rounding
  import opened Ledger
  import opened Till

  predicate Owns(s: Store, tenant: Uuid, customer: Uuid) {
    customer in s.customers && s.customers[customer].tenant == tenant
  }

  /** Requests that post rows for one customer under an idempotency key. */
  predicate IsPosting(q: Request) {
    q.RegisterDebt? || q.RegisterPayment? || q.RegisterMixed? || q.Forgive?
  }

  function NewRow(e: Env, id: Uuid, key: Uuid, customer: Uuid, kind: TxType, amount: int): Row {
    Row(id, e.tenant, customer, kind, amount, None, None, key, None, false, None, e.now)
  }

  // ─── Posting: debt, payment, mixed payment, forgiveness ────────────────

  datatype Decision = Refuse(error: Error) | Write(rows: seq<Row>, customer: Customer)

  /** What a posting writes, given the locked customer row. */
  function Decide(e: Env, c: Customer): Decision
    requires IsPosting(e.request)
  {
    match e.request
    case RegisterDebt(customer, amount, key, rowId) =>
      if !c.active then Refuse(Blocked)
      else if c.balance + amount > c.limit then Refuse(OverLimit)
      else Write([NewRow(e, rowId, key, customer, DEBT, amount)], c.(balance := c.balance + amount))
    case RegisterPayment(customer, amount, paidBy, key, rowId) =>
      var effective := Min(amount, c.balance);
      if effective <= 0 then Refuse(NoDebt)
      else
        var used := if paidBy.Some? then paidBy else Some(CASH);
        Write([NewRow(e, rowId, key, customer, PAYMENT, effective).(paidBy := used)],
              c.(balance := c.balance - effective))
    case RegisterMixed(customer, total, cash, transfer, key, drift, cashId, transferId, transferKey, groupId) =>
      if c.balance <= 0 then Refuse(NoDebt)
      else
        var (cashPart, transferPart) := Prorate(total, cash, transfer, c.balance, drift);
        Write([NewRow(e, cashId, key, customer, PAYMENT, cashPart).(paidBy := Some(CASH), group := Some(groupId)),
               NewRow(e, transferId, transferKey, customer, PAYMENT, transferPart)
               .(paidBy := Some(TRANSFER), group := Some(groupId))],
              c.(balance := Max(0, c.balance - (cashPart + transferPart))))
    case Forgive(customer, key, rowId) =>
      if c.balance <= 0 then Refuse(NoDebt)
      else Write([NewRow(e, rowId, key, customer, FORGIVENESS, c.balance)], c.(balance := 0))
  }

  /** The reply to a key that is already in the ledger. */
  function Replay(l: seq<Row>, q: Request, existing: Row): Reply {
    if q.RegisterMixed? then
      var cash := if existing.group.Some? then FindInGroup(l, existing.group.value, CASH) else None;
      var transfer := if existing.group.Some? then FindInGroup(l, existing.group.value, TRANSFER) else None;
      PostedPair(if cash.Some? then cash.value else existing, if transfer.Some? then transfer.value else existing)
    else Posted(existing)
  }

  function Done(rows: seq<Row>): Reply
    requires 1 <= |rows|
  {
    if |rows| == 1 then Posted(rows[0]) else PostedPair(rows[0], rows[1])
  }

  predicate Accepts(l: seq<Row>, rows: seq<Row>, c: Customer) {
    Insertable(l, rows) && Int4(c.balance)
  }

  function ApplyPosting(s: Store, e: Env): Outcome
    requires IsPosting(e.request)
  {
    var q := e.request;
    if q.RegisterMixed? && q.cash + q.transfer != q.total then Outcome(s, Rejected(SumMismatch))
    else
      var existing := FindKey(s.ledger, e.tenant, q.key);
      if existing.Some? then Outcome(s, Replay(s.ledger, q, existing.value))
      else if !Owns(s, e.tenant, q.customer) then Outcome(s, Rejected(NotFound))
      else
        match Decide(e, s.customers[q.customer])
        case Refuse(error) => Outcome(s, Rejected(error))
        case Write(rows, c) =>
          if !Accepts(s.ledger, rows, c) then Outcome(s, Rejected(DbError))
          else Outcome(s.(ledger := s.ledger + rows, customers := s.customers[q.customer := c]), Done(rows))
  }

  // ─── Reversal ──────────────────────────────────────────────────────────

  function ReversalRow(e: Env, original: Row): Row
    requires e.request.Reverse?
  {
    NewRow(e, e.request.rowId, e.request.key, original.customer, REVERSAL, original.amount)
    .(reverses := Some(original.id))
  }

  /** The balance after undoing `original`, never below zero. */
  function Undo(original: Row, balance: int): int {
    Max(0, if IncreasesDebt(original.kind) then balance - original.amount else balance + original.amount)
  }

  function ApplyReverse(s: Store, e: Env): Outcome
    requires e.request.Reverse?
  {
    var existing := FindKey(s.ledger, e.tenant, e.request.key);
    if existing.Some? then Outcome(s, Posted(existing.value))
    else
      var found := FindTx(s.ledger, e.tenant, e.request.target);
      if found.None? then Outcome(s, Rejected(NotFound))
      else if found.value.reversed then Outcome(s, Rejected(AlreadyReversed))
      else if !Owns(s, e.tenant, found.value.customer) then Outcome(s, Rejected(NotFound))
      else
        var original, customer := found.value, found.value.customer;
        var c := s.customers[customer];
        var undone := c.(balance := Undo(original, c.balance));
        var row := ReversalRow(e, original);
        if !Accepts(s.ledger, [row], undone) then Outcome(s, Rejected(DbError))
        else
          Outcome(s.(ledger := MarkReversed(s.ledger + [row], original.id),
                     customers := s.customers[customer := undone]),
                  Posted(row))
  }

  // ─── Inflation batch ───────────────────────────────────────────────────

  function Inflated(c: Customer, rate: Rate): Customer {
    c.(balance := c.balance + Surcharge(c.balance, rate))
  }

  /** Every customer of the tenant, surcharged. */
  function InflatedCustomers(customers: map<Uuid, Customer>, tenant: Uuid, rate: Rate): map<Uuid, Customer> {
    map c | c in customers ::
      if customers[c].tenant == tenant then Inflated(customers[c], rate) else customers[c]
  }

  function SlotSurcharge(customers: map<Uuid, Customer>, slot: Slot, rate: Rate): int {
    if slot.customer in customers then Surcharge(customers[slot.customer].balance, rate) else 0
  }

  /** The rows the batch inserts, in visiting order. */
  function InflationRows(e: Env, customers: map<Uuid, Customer>, rate: Rate, slots: seq<Slot>): seq<Row> {
    if slots == [] then []
    else
      var slot := slots[|slots| - 1];
      var before := InflationRows(e, customers, rate, slots[..|slots| - 1]);
      var amount := SlotSurcharge(customers, slot, rate);
      if amount <= 0 then before
      else before + [NewRow(e, slot.rowId, slot.rowKey, slot.customer, INFLATION_ADJUSTMENT, amount)]
  }

  function InflationTotal(customers: map<Uuid, Customer>, rate: Rate, slots: seq<Slot>): int {
    if slots == [] then 0
    else InflationTotal(customers, rate, slots[..|slots| - 1])
         + SlotSurcharge(customers, slots[|slots| - 1], rate)
  }

  /** All debtors, also those whose rounded surcharge is zero. */
  function DebtorCount(customers: map<Uuid, Customer>, slots: seq<Slot>): nat {
    if slots == [] then 0
    else
      var last := slots[|slots| - 1].customer;
      DebtorCount(customers, slots[..|slots| - 1])
      + if last in customers && customers[last].balance > 0 then 1 else 0
  }

  predicate InflationFits(customers: map<Uuid, Customer>) {
    forall c | c in customers :: Int4(customers[c].balance)
  }

  function ApplyInflate(s: Store, e: Env): Outcome
    requires e.request.Inflate?
  {
    var q := e.request;
    if (e.tenant, q.key) in s.batches then
      var b := s.batches[(e.tenant, q.key)];
      Outcome(s, BatchApplied(b.affected, b.total))
    else
      var rows := InflationRows(e, s.customers, q.rate, q.slots);
      var customers := InflatedCustomers(s.customers, e.tenant, q.rate);
      if !Insertable(s.ledger, rows) || !InflationFits(customers) then Outcome(s, Rejected(DbError))
      else
        var affected := DebtorCount(s.customers, q.slots);
        var total := InflationTotal(s.customers, q.rate, q.slots);
        Outcome(s.(ledger := s.ledger + rows, customers := customers,
                   batches := s.batches[(e.tenant, q.key) := Batch(affected, total)]),
                BatchApplied(affected, total))
  }

  // ─── Customers ─────────────────────────────────────────────────────────

  ghost predicate KeyTaken(s: Store, tenant: Uuid, key: Uuid, c: Uuid) {
    Owns(s, tenant, c) && s.customers[c].key == Some(key)
  }

  ghost predicate PhoneInUse(s: Store, tenant: Uuid, phone: string) {
    exists c :: Owns(s, tenant, c) && s.customers[c].phone == Some(phone)
  }

  ghost predicate DniInUse(s: Store, tenant: Uuid, dni: string) {
    exists c :: Owns(s, tenant, c) && s.customers[c].dni == Some(dni)
  }

  function NewCustomer(e: Env): Customer
    requires e.request.CreateCustomer?
  {
    var q := e.request;
    Customer(e.tenant, 0, if q.newLimit.Some? then q.newLimit.value else 0, true, q.phone, q.dni, q.newKey)
  }

  /** An empty phone or DNI is falsy and is not checked. */
  ghost function ApplyCreate(s: Store, e: Env): Outcome
    requires e.request.CreateCustomer?
  {
    var q := e.request;
    if q.newKey.Some? && exists c :: KeyTaken(s, e.tenant, q.newKey.value, c) then
      var c :| KeyTaken(s, e.tenant, q.newKey.value, c);
      Outcome(s, CustomerSaved(c, s.customers[c]))
    else if q.phone.Some? && q.phone.value != "" && PhoneInUse(s, e.tenant, q.phone.value) then
      Outcome(s, Rejected(PhoneTaken))
    else if q.dni.Some? && q.dni.value != "" && DniInUse(s, e.tenant, q.dni.value) then
      Outcome(s, Rejected(DniTaken))
    else if q.id in s.customers || e.tenant !in s.tenants || !Int4(NewCustomer(e).limit) then
      Outcome(s, Rejected(DbError))
    else
      Outcome(s.(customers := s.customers[q.id := NewCustomer(e)]), CustomerSaved(q.id, NewCustomer(e)))
  }

  function ApplySetLimit(s: Store, e: Env): Outcome
    requires e.request.SetLimit?
  {
    var q := e.request;
    if !Owns(s, e.tenant, q.customer) then Outcome(s, Rejected(NotFound))
    else if !Int4(q.limit) then Outcome(s, Rejected(DbError))
    else
      var c := s.customers[q.customer].(limit := q.limit);
      Outcome(s.(customers := s.customers[q.customer := c]), CustomerSaved(q.customer, c))
  }

  function ApplyToggle(s: Store, e: Env): Outcome
    requires e.request.ToggleBlock?
  {
    var q := e.request;
    if !Owns(s, e.tenant, q.customer) then Outcome(s, Rejected(NotFound))
    else
      var c := s.customers[q.customer];
      var toggled := c.(active := !c.active);
      Outcome(s.(customers := s.customers[q.customer := toggled]), CustomerSaved(q.customer, toggled))
  }

  /** Primary after absorbing secondary, and what is left of the secondary. */
  function Absorb(p: Customer, q: Customer): (Customer, Customer) {
    (p.(balance := p.balance + q.balance, limit := Max(p.limit, q.limit)), q.(active := false, balance := 0))
  }

  function MissingRole(q: Request, id: Uuid): Error
    requires q.Merge?
  {
    if id == q.primary then PrimaryMissing else SecondaryMissing
  }

  function ApplyMerge(s: Store, e: Env): Outcome
    requires e.request.Merge?
  {
    var q := e.request;
    if q.primary == q.secondary then Outcome(s, Rejected(SelfMerge))
    else
      var first, second := Min(q.primary, q.secondary), Max(q.primary, q.secondary);
      if !Owns(s, e.tenant, first) then Outcome(s, Rejected(MissingRole(q, first)))
      else if !Owns(s, e.tenant, second) then Outcome(s, Rejected(MissingRole(q, second)))
      else
        var (p, r) := Absorb(s.customers[q.primary], s.customers[q.secondary]);
        if !Int4(p.balance) then Outcome(s, Rejected(DbError))
        else
          Outcome(s.(ledger := MoveRows(s.ledger, e.tenant, q.secondary, q.primary),
                     customers := s.customers[q.primary := p][q.secondary := r]),
                  CustomerSaved(q.primary, p))
  }

  // ─── Cash register ─────────────────────────────────────────────────────

  function ApplyOpen(s: Store, e: Env): Outcome
    requires e.request.OpenTurn?
  {
    var q := e.request;
    if e.tenant !in s.tenants then Outcome(s, Rejected(NotFound))
    else if s.tenants[e.tenant].activeShift.Some? then Outcome(s, Rejected(TurnAlreadyOpen))
    else
      var opening := if q.opening.Some? then q.opening.value else 0;
      var h := Shift(q.shiftId, e.tenant, e.now, None, opening, None, None, None, None, OPEN);
      if !Int4(opening) || exists i :: 0 <= i < |s.shifts| && s.shifts[i].id == q.shiftId then
        Outcome(s, Rejected(DbError))
      else
        Outcome(s.(shifts := s.shifts + [h], tenants := s.tenants[e.tenant := Tenant(Some(h.id))]), ShiftSaved(h))
  }

  /** The row of a shift closed at `now` with `actual` in the drawer. */
  function Closed(h: Shift, now: int, cash: int, actual: int, note: Option<string>): Shift {
    var expected := h.opening + cash;
    h.(closedAt := Some(now), expected := Some(expected), actual := Some(actual),
       discrepancy := Some(actual - expected), note := note,
       status := if actual == expected then CLOSED_OK else CLOSED_WITH_DISCREPANCY)
  }

  function ApplyClose(s: Store, e: Env): Outcome
    requires e.request.CloseTurn?
  {
    var q := e.request;
    if e.tenant !in s.tenants then Outcome(s, Rejected(NotFound))
    else if s.tenants[e.tenant].activeShift.None? then Outcome(s, Rejected(NoOpenTurn))
    else
      var found := FindOpenById(s.shifts, e.tenant, s.tenants[e.tenant].activeShift.value);
      if found.None? then Outcome(s, Rejected(ShiftMissing))
      else
        var cash := CashDue(s.ledger, e.tenant, found.value.openedAt);
        if !Int4(cash) then Outcome(s, Rejected(DbError))
        else
          var h := Closed(found.value, e.now, cash, q.actual, q.note);
          if h.discrepancy != Some(0) && (q.note.None? || q.note.value == "") then
            Outcome(s, Rejected(NoteRequired))
          else if !(Int4(h.expected.value) && Int4(q.actual) && Int4(h.discrepancy.value)) then
            Outcome(s, Rejected(DbError))
          else
            Outcome(s.(shifts := SaveShift(s.shifts, h),
                       ledger := Freeze(s.ledger, e.tenant, found.value.openedAt, h.id),
                       tenants := s.tenants[e.tenant := Tenant(None)]),
                    ShiftSaved(h))
  }

  datatype Summary =
    Summary(shiftId: Option<Uuid>, expected: int, opening: int, openedAt: Option<int>, count: nat, transfers: int)

  /** The summary endpoint; None when a SUM does not fit its `int` cast. */
  function SummaryOf(s: Store, tenant: Uuid): Option<Summary> {
    var open := FindOpen(s.shifts, tenant);
    if open.None? then Some(Summary(None, 0, 0, None, 0, 0))
    else
      var h := open.value;
      var cash, transfers := CashDue(s.ledger, tenant, h.openedAt), TransferDue(s.ledger, tenant, h.openedAt);
      if !Int4(cash) || !Int4(transfers) then None
      else
        Some(Summary(Some(h.id), h.opening + cash, h.opening, Some(h.openedAt),
                     CashCount(s.ledger, tenant, h.openedAt), transfers))
  }

  // ─── Steps and runs ────────────────────────────────────────────────────

  ghost function Apply(s: Store, e: Env): Outcome {
    match e.request
    case RegisterDebt(_, _, _, _) => ApplyPosting(s, e)
    case RegisterPayment(_, _, _, _, _) => ApplyPosting(s, e)
    case RegisterMixed(_, _, _, _, _, _, _, _, _, _) => ApplyPosting(s, e)
    case Forgive(_, _, _) => ApplyPosting(s, e)
    case Reverse(_, _, _) => ApplyReverse(s, e)
    case Inflate(_, _, _) => ApplyInflate(s, e)
    case CreateCustomer(_, _, _, _, _) => ApplyCreate(s, e)
    case SetLimit(_, _) => ApplySetLimit(s, e)
    case ToggleBlock(_) => ApplyToggle(s, e)
    case Merge(_, _) => ApplyMerge(s, e)
    case OpenTurn(_, _) => ApplyOpen(s, e)
    case CloseTurn(_, _) => ApplyClose(s, e)
  }

  /** The state after serving the requests one after the other. */
  ghost function Run(s: Store, es: seq<Env>): Store {
    if es == [] then s else Apply(Run(s, es[..|es| - 1]), es[|es| - 1]).store
  }

  lemma {:induction false} RunAppend(s: Store, a: seq<Env>, b: seq<Env>)
    ensures Run(s, a + b) == Run(Run(s, a), b)
  {
    if b == [] {
      assert a + b == a;
    } else {
      var n := |b| - 1;
      assert (a + b)[..|a + b| - 1] == a + b[..n];
      RunAppend(s, a, b[..n]);
    }
  }

  // ─── What the callers and the environment guarantee ────────────────────

  predicate Cents(n: int) {
    0 < n <= MAX_AMOUNT_CENTS
  }

  predicate Distinct(slots: seq<Slot>) {
    forall i, j | 0 <= i < j < |slots| :: slots[i].customer != slots[j].customer
  }

  ghost predicate Visits(slots: seq<Slot>, c: Uuid) {
    exists i :: 0 <= i < |slots| && slots[i].customer == c
  }

  /** The slots list each customer of the tenant exactly once. */
  ghost predicate Enumerates(s: Store, tenant: Uuid, slots: seq<Slot>) {
    && (forall i | 0 <= i < |slots| :: Owns(s, tenant, slots[i].customer))
    && Distinct(slots)
    && (forall c | Owns(s, tenant, c) :: Visits(slots, c))
  }

  /** The DTO bounds, a fresh random group id, and what a SELECT over the tenant returns. */
  ghost predicate WellFormed(s: Store, e: Env) {
    match e.request
    case RegisterDebt(_, amount, _, _) => Cents(amount)
    case RegisterPayment(_, amount, _, _, _) => Cents(amount)
    case RegisterMixed(_, total, cash, transfer, _, drift, _, _, _, groupId) =>
      && Cents(total) && Cents(cash) && Cents(transfer)
      && -0.5 < drift < 0.5
      && forall i | 0 <= i < |s.ledger| :: s.ledger[i].group != Some(groupId)
    case Inflate(rate, _, slots) =>
      0.0 < rate.percentage <= 1000.0 && Dependable(rate) && Enumerates(s, e.tenant, slots)
    case CreateCustomer(_, newLimit, _, _, _) => newLimit.Some? ==> 0 <= newLimit.value <= MAX_AMOUNT_CENTS
    case SetLimit(_, limit) => 0 <= limit <= MAX_AMOUNT_CENTS
    case OpenTurn(opening, _) => opening.Some? ==> 0 <= opening.value
    case CloseTurn(actual, _) => 0 <= actual
    case _ => true
  }

  ghost predicate WellFormedRun(s: Store, es: seq<Env>) {
    es == [] || (WellFormedRun(s, es[..|es| - 1]) && WellFormed(Run(s, es[..|es| - 1]), es[|es| - 1]))
  }
}
