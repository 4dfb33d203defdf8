/** Tenant isolation: a request sees and changes its own tenant's rows only. */
module Tenancy {
  import opened Domain
  import opened Rounding
  import opened Ledger
  import opened Till
  import opened Engine
  import opened Invariants

  // ─── The rows of one tenant ────────────────────────────────────────────

  function RowsOf(l: seq<Row>, tenant: Uuid): seq<Row> {
    if l == [] then []
    else
      var front, last := RowsOf(l[..|l| - 1], tenant), l[|l| - 1];
      if last.tenant == tenant then front + [last] else front
  }

  function ShiftsOf(shifts: seq<Shift>, tenant: Uuid): seq<Shift> {
    if shifts == [] then []
    else
      var front, last := ShiftsOf(shifts[..|shifts| - 1], tenant), shifts[|shifts| - 1];
      if last.tenant == tenant then front + [last] else front
  }

  function CustomersOf(customers: map<Uuid, Customer>, tenant: Uuid): map<Uuid, Customer> {
    map c | c in customers && customers[c].tenant == tenant :: customers[c]
  }

  function BatchesOf(batches: map<(Uuid, Uuid), Batch>, tenant: Uuid): map<(Uuid, Uuid), Batch> {
    map b | b in batches && b.0 == tenant :: batches[b]
  }

  function TenantsOf(tenants: map<Uuid, Tenant>, tenant: Uuid): map<Uuid, Tenant> {
    map t | t in tenants && t == tenant :: tenants[t]
  }

  /** The database as if the tenant were alone in it. */
  function Project(s: Store, tenant: Uuid): Store {
    Store(TenantsOf(s.tenants, tenant), CustomersOf(s.customers, tenant), RowsOf(s.ledger, tenant),
          BatchesOf(s.batches, tenant), ShiftsOf(s.shifts, tenant))
  }

  /** No id drawn for the request belongs to another tenant already. */
  ghost predicate DrawsAreFresh(s: Store, e: Env) {
    && (forall i | 0 <= i < |s.ledger| && s.ledger[i].tenant != e.tenant ::
          match e.request
          case RegisterDebt(_, _, _, rowId) => s.ledger[i].id != rowId
          case RegisterPayment(_, _, _, _, rowId) => s.ledger[i].id != rowId
          case RegisterMixed(_, _, _, _, _, _, cashId, transferId, _, _) =>
            s.ledger[i].id != cashId && s.ledger[i].id != transferId
          case Forgive(_, _, rowId) => s.ledger[i].id != rowId
          case Reverse(_, _, rowId) => s.ledger[i].id != rowId
          case Inflate(_, _, slots) => forall k | 0 <= k < |slots| :: slots[k].rowId != s.ledger[i].id
          case _ => true)
    && (e.request.CreateCustomer? && e.request.id in s.customers ==> s.customers[e.request.id].tenant == e.tenant)
    && (e.request.OpenTurn? ==>
          forall i | 0 <= i < |s.shifts| && s.shifts[i].tenant != e.tenant :: s.shifts[i].id != e.request.shiftId)
  }

  // ─── Filtering commutes with every lookup and update ───────────────────

  lemma {:induction false} RowsOfMembers(l: seq<Row>, tenant: Uuid)
    ensures forall r :: r in RowsOf(l, tenant) <==> r in l && r.tenant == tenant
  {
    if l != [] {
      var n := |l| - 1;
      RowsOfMembers(l[..n], tenant);
      assert l == l[..n] + [l[n]];
    }
  }

  lemma {:induction false} ShiftsOfMembers(shifts: seq<Shift>, tenant: Uuid)
    ensures forall h :: h in ShiftsOf(shifts, tenant) <==> h in shifts && h.tenant == tenant
  {
    if shifts != [] {
      var n := |shifts| - 1;
      ShiftsOfMembers(shifts[..n], tenant);
      assert shifts == shifts[..n] + [shifts[n]];
    }
  }

  lemma {:induction false} LookupsCommute(l: seq<Row>, tenant: Uuid, x: Uuid)
    ensures FindKey(RowsOf(l, tenant), tenant, x) == FindKey(l, tenant, x)
    ensures FindTx(RowsOf(l, tenant), tenant, x) == FindTx(l, tenant, x)
  {
    if l != [] {
      var n := |l| - 1;
      LookupsCommute(l[..n], tenant, x);
      var rows := RowsOf(l, tenant);
      if l[n].tenant == tenant {
        assert rows[..|rows| - 1] == RowsOf(l[..n], tenant);
      }
    }
  }

  lemma {:induction false} GroupLookupCommutes(l: seq<Row>, tenant: Uuid, g: Uuid, paidBy: PaymentMethod)
    requires forall i | 0 <= i < |l| && l[i].group == Some(g) :: l[i].tenant == tenant
    ensures FindInGroup(RowsOf(l, tenant), g, paidBy) == FindInGroup(l, g, paidBy)
  {
    if l != [] {
      var n := |l| - 1;
      GroupLookupCommutes(l[..n], tenant, g, paidBy);
      var rows := RowsOf(l, tenant);
      if l[n].tenant == tenant {
        assert rows[..|rows| - 1] == RowsOf(l[..n], tenant);
      }
    }
  }

  lemma {:induction false} SumsCommute(l: seq<Row>, tenant: Uuid, openedAt: int)
    ensures CashDue(RowsOf(l, tenant), tenant, openedAt) == CashDue(l, tenant, openedAt)
    ensures TransferDue(RowsOf(l, tenant), tenant, openedAt) == TransferDue(l, tenant, openedAt)
    ensures CashCount(RowsOf(l, tenant), tenant, openedAt) == CashCount(l, tenant, openedAt)
  {
    if l != [] {
      var n := |l| - 1;
      SumsCommute(l[..n], tenant, openedAt);
      var rows := RowsOf(l, tenant);
      if l[n].tenant == tenant {
        assert rows[..|rows| - 1] == RowsOf(l[..n], tenant);
      }
    }
  }

  lemma {:induction false} ShiftLookupsCommute(shifts: seq<Shift>, tenant: Uuid, id: Uuid)
    ensures FindOpenById(ShiftsOf(shifts, tenant), tenant, id) == FindOpenById(shifts, tenant, id)
    ensures FindOpen(ShiftsOf(shifts, tenant), tenant) == FindOpen(shifts, tenant)
  {
    if shifts != [] {
      var n := |shifts| - 1;
      ShiftLookupsCommute(shifts[..n], tenant, id);
      var own := ShiftsOf(shifts, tenant);
      if shifts[n].tenant == tenant {
        assert own[..|own| - 1] == ShiftsOf(shifts[..n], tenant);
      }
    }
  }

  lemma {:induction false} RowsOfAppend(l: seq<Row>, rows: seq<Row>, tenant: Uuid)
    ensures RowsOf(l + rows, tenant) == RowsOf(l, tenant) + RowsOf(rows, tenant)
  {
    if rows == [] {
      assert l + rows == l;
    } else {
      var n := |rows| - 1;
      assert (l + rows)[..|l + rows| - 1] == l + rows[..n];
      RowsOfAppend(l, rows[..n], tenant);
    }
  }

  lemma {:induction false} RowsOfOwn(rows: seq<Row>, tenant: Uuid, owner: Uuid)
    requires forall i | 0 <= i < |rows| :: rows[i].tenant == owner
    ensures RowsOf(rows, tenant) == if owner == tenant then rows else []
  {
    if rows != [] {
      RowsOfOwn(rows[..|rows| - 1], tenant, owner);
      assert rows == rows[..|rows| - 1] + [rows[|rows| - 1]];
    }
  }

  /** A row-wise update of `l` seen through the filter, for a tenant it does and does not touch. */
  lemma {:induction false} UpdateCommutes(l: seq<Row>, m: seq<Row>, tenant: Uuid, updated: seq<Row>)
    requires |m| == |l| && |updated| == |RowsOf(l, tenant)|
    requires forall i | 0 <= i < |l| :: m[i].tenant == l[i].tenant
    requires forall i, k | 0 <= i < |l| && 0 <= k < |updated| && RowsOf(l, tenant)[k] == l[i]
      && l[i].tenant == tenant ::
      updated[k] == m[i]
    ensures RowsOf(m, tenant) == updated
  {
    if l != [] {
      var n := |l| - 1;
      var rows := RowsOf(l, tenant);
      if l[n].tenant == tenant {
        assert rows[..|rows| - 1] == RowsOf(l[..n], tenant);
        UpdateCommutes(l[..n], m[..n], tenant, updated[..|updated| - 1]);
        assert rows[|rows| - 1] == l[n];
        assert updated == updated[..|updated| - 1] + [m[n]];
      } else {
        UpdateCommutes(l[..n], m[..n], tenant, updated);
      }
    }
  }

  lemma MarkCommutes(l: seq<Row>, tenant: Uuid, id: Uuid)
    ensures RowsOf(MarkReversed(l, id), tenant) == MarkReversed(RowsOf(l, tenant), id)
  {
    UpdateCommutes(l, MarkReversed(l, id), tenant, MarkReversed(RowsOf(l, tenant), id));
  }

  lemma MoveCommutes(l: seq<Row>, tenant: Uuid, owner: Uuid, q: Uuid, p: Uuid)
    ensures RowsOf(MoveRows(l, owner, q, p), tenant) == MoveRows(RowsOf(l, tenant), owner, q, p)
  {
    UpdateCommutes(l, MoveRows(l, owner, q, p), tenant, MoveRows(RowsOf(l, tenant), owner, q, p));
  }

  lemma FreezeCommutes(l: seq<Row>, tenant: Uuid, owner: Uuid, openedAt: int, shift: Uuid)
    ensures RowsOf(Freeze(l, owner, openedAt, shift), tenant) == Freeze(RowsOf(l, tenant), owner, openedAt, shift)
  {
    UpdateCommutes(l, Freeze(l, owner, openedAt, shift), tenant, Freeze(RowsOf(l, tenant), owner, openedAt, shift));
  }

  /** A tenant's rows are left alone by an update that touches only other tenants' rows. */
  lemma Untouched(l: seq<Row>, m: seq<Row>, tenant: Uuid)
    requires |m| == |l|
    requires forall i | 0 <= i < |l| :: m[i].tenant == l[i].tenant && (l[i].tenant == tenant ==> m[i] == l[i])
    ensures RowsOf(m, tenant) == RowsOf(l, tenant)
  {
    UpdateCommutes(l, m, tenant, RowsOf(l, tenant));
  }

  lemma {:induction false} ShiftSaveCommutes(shifts: seq<Shift>, h: Shift, tenant: Uuid)
    requires forall i | 0 <= i < |shifts| && shifts[i].id == h.id :: shifts[i].tenant == h.tenant
    ensures ShiftsOf(SaveShift(shifts, h), tenant) == SaveShift(ShiftsOf(shifts, tenant), h)
    ensures h.tenant != tenant ==> ShiftsOf(SaveShift(shifts, h), tenant) == ShiftsOf(shifts, tenant)
  {
    if shifts != [] {
      var n := |shifts| - 1;
      ShiftSaveCommutes(shifts[..n], h, tenant);
      assert SaveShift(shifts, h)[..n] == SaveShift(shifts[..n], h);
    }
  }

  lemma InsertableCommutes(l: seq<Row>, rows: seq<Row>, tenant: Uuid)
    requires forall j | 0 <= j < |rows| :: rows[j].tenant == tenant
    requires forall i, j | 0 <= i < |l| && 0 <= j < |rows| && l[i].tenant != tenant :: l[i].id != rows[j].id
    ensures Insertable(RowsOf(l, tenant), rows) <==> Insertable(l, rows)
  {
    RowsOfMembers(l, tenant);
    var own := RowsOf(l, tenant);
    if Insertable(own, rows) {
      forall i, j | 0 <= i < |l| && 0 <= j < |rows| ensures !Clash(l[i], rows[j]) {
        if l[i].tenant == tenant {
          var k :| 0 <= k < |own| && own[k] == l[i];
          assert !Clash(own[k], rows[j]);
        }
      }
    }
    if Insertable(l, rows) {
      forall k, j | 0 <= k < |own| && 0 <= j < |rows| ensures !Clash(own[k], rows[j]) {
        assert own[k] in own;
        var i :| 0 <= i < |l| && l[i] == own[k];
        assert !Clash(l[i], rows[j]);
      }
    }
  }

  lemma {:induction false} BatchCommutes(e: Env, customers: map<Uuid, Customer>, rate: Rate, slots: seq<Slot>)
    requires forall i | 0 <= i < |slots| ::
      slots[i].customer in customers && customers[slots[i].customer].tenant == e.tenant
    ensures var own := CustomersOf(customers, e.tenant);
            && InflationRows(e, own, rate, slots) == InflationRows(e, customers, rate, slots)
            && InflationTotal(own, rate, slots) == InflationTotal(customers, rate, slots)
            && DebtorCount(own, slots) == DebtorCount(customers, slots)
  {
    if slots != [] {
      BatchCommutes(e, customers, rate, slots[..|slots| - 1]);
    }
  }

  /** The row carries an id drawn for one of the slots. */
  ghost predicate DrawnFor(r: Row, tenant: Uuid, slots: seq<Slot>) {
    r.tenant == tenant && exists k :: 0 <= k < |slots| && slots[k].rowId == r.id
  }

  ghost predicate AllDrawnFor(rows: seq<Row>, tenant: Uuid, slots: seq<Slot>) {
    forall j | 0 <= j < |rows| :: DrawnFor(rows[j], tenant, slots)
  }

  lemma {:induction false} BatchRowIds(e: Env, customers: map<Uuid, Customer>, rate: Rate, slots: seq<Slot>)
    ensures AllDrawnFor(InflationRows(e, customers, rate, slots), e.tenant, slots)
  {
    if slots != [] {
      var n := |slots| - 1;
      BatchRowIds(e, customers, rate, slots[..n]);
      var rows := InflationRows(e, customers, rate, slots);
      var before := InflationRows(e, customers, rate, slots[..n]);
      forall j | 0 <= j < |rows| ensures DrawnFor(rows[j], e.tenant, slots) {
        if j < |before| {
          assert DrawnFor(before[j], e.tenant, slots[..n]);
          var k :| 0 <= k < n && slots[..n][k].rowId == before[j].id;
          assert slots[k].rowId == rows[j].id;
        } else {
          assert slots[n].rowId == rows[j].id;
        }
      }
    }
  }

  // ─── Each request, on its own tenant's projection ──────────────────────

  /** Serving a request and then looking at its tenant is looking first and serving then. */
  ghost predicate Commutes(s: Store, e: Env) {
    && Apply(Project(s, e.tenant), e).reply == Apply(s, e).reply
    && Apply(Project(s, e.tenant), e).store == Project(Apply(s, e).store, e.tenant)
  }

  lemma ReplayCommutes(l: seq<Row>, tenant: Uuid, q: Request, existing: Row)
    requires Tidy(l) && existing in l && existing.tenant == tenant
    ensures Replay(RowsOf(l, tenant), q, existing) == Replay(l, q, existing)
  {
    if existing.group.Some? {
      var g := existing.group.value;
      var k := AtIndex(l, existing);
      forall i | 0 <= i < |l| && l[i].group == Some(g) ensures l[i].tenant == tenant {
      }
      GroupLookupCommutes(l, tenant, g, CASH);
      GroupLookupCommutes(l, tenant, g, TRANSFER);
    }
  }

  lemma DecideRowIds(s: Store, e: Env, c: Customer)
    requires IsPosting(e.request) && DrawsAreFresh(s, e) && Decide(e, c).Write?
    ensures var rows := Decide(e, c).rows;
            && (forall j | 0 <= j < |rows| :: rows[j].tenant == e.tenant)
            && (forall i, j | 0 <= i < |s.ledger| && 0 <= j < |rows| && s.ledger[i].tenant != e.tenant ::
                  s.ledger[i].id != rows[j].id)
    ensures Decide(e, c).customer.tenant == c.tenant
  {
  }

  /** Appending a tenant's own rows and saving one of its customers, seen by the tenant. */
  lemma WriteCommutes(s: Store, tenant: Uuid, rows: seq<Row>, id: Uuid, c: Customer)
    requires forall j | 0 <= j < |rows| :: rows[j].tenant == tenant
    requires c.tenant == tenant && Owns(s, tenant, id)
    ensures var p := Project(s, tenant);
            && Project(s.(ledger := s.ledger + rows, customers := s.customers[id := c]), tenant)
               == p.(ledger := p.ledger + rows, customers := p.customers[id := c])
  {
    RowsOfAppend(s.ledger, rows, tenant);
    RowsOfOwn(rows, tenant, tenant);
    CustomerUpdateCommutes(s.customers, tenant, id, c);
  }

  lemma PostingReplyCommutes(s: Store, e: Env)
    requires Inv(s) && IsPosting(e.request) && FindKey(s.ledger, e.tenant, e.request.key).Some?
    ensures ApplyPosting(Project(s, e.tenant), e) == Outcome(Project(s, e.tenant), ApplyPosting(s, e).reply)
    ensures ApplyPosting(s, e).store == s
  {
    LookupsCommute(s.ledger, e.tenant, e.request.key);
    ReplayCommutes(s.ledger, e.tenant, e.request, FindKey(s.ledger, e.tenant, e.request.key).value);
  }

  lemma PostingCommutes(s: Store, e: Env)
    requires Inv(s) && DrawsAreFresh(s, e) && IsPosting(e.request)
    ensures Commutes(s, e)
  {
    hide Inv, Insertable;
    var q, a := e.request, e.tenant;
    LookupsCommute(s.ledger, a, q.key);
    if FindKey(s.ledger, a, q.key).Some? {
      PostingReplyCommutes(s, e);
    } else if Owns(s, a, q.customer) && Decide(e, s.customers[q.customer]).Write? {
      var d := Decide(e, s.customers[q.customer]);
      DecideRowIds(s, e, s.customers[q.customer]);
      InsertableCommutes(s.ledger, d.rows, a);
      WriteCommutes(s, a, d.rows, q.customer, d.customer);
    }
  }

  lemma CustomerUpdateCommutes(customers: map<Uuid, Customer>, tenant: Uuid, id: Uuid, c: Customer)
    requires c.tenant == tenant && (id in customers ==> customers[id].tenant == tenant)
    ensures CustomersOf(customers[id := c], tenant) == CustomersOf(customers, tenant)[id := c]
  {
  }

  lemma ReverseCommutes(s: Store, e: Env)
    requires Inv(s) && DrawsAreFresh(s, e) && e.request.Reverse?
    ensures Commutes(s, e)
  {
    hide Linked, Tidy, Owned, Solvent, Semaphore, Sealed, Unique, Insertable;
    var q, a := e.request, e.tenant;
    LookupsCommute(s.ledger, a, q.key);
    LookupsCommute(s.ledger, a, q.target);
    var found := FindTx(s.ledger, a, q.target);
    if found.Some? && Owns(s, a, found.value.customer) {
      ReversalCommutes(s, e, found.value);
    }
  }

  lemma ReversalCommutes(s: Store, e: Env, original: Row)
    requires Inv(s) && DrawsAreFresh(s, e) && e.request.Reverse? && Owns(s, e.tenant, original.customer)
    ensures var row, a, p := ReversalRow(e, original), e.tenant, Project(s, e.tenant);
            var before := s.customers[original.customer];
            var undone := before.(balance := Undo(original, before.balance));
            && p.customers[original.customer] == s.customers[original.customer]
            && (Insertable(p.ledger, [row]) <==> Insertable(s.ledger, [row]))
            && Project(s.(ledger := MarkReversed(s.ledger + [row], original.id),
                          customers := s.customers[original.customer := undone]), a)
               == p.(ledger := MarkReversed(p.ledger + [row], original.id),
                     customers := p.customers[original.customer := undone])
  {
    var row, c := ReversalRow(e, original), s.customers[original.customer];
    InsertableCommutes(s.ledger, [row], e.tenant);
    WriteCommutes(s, e.tenant, [row], original.customer, c.(balance := Undo(original, c.balance)));
    MarkCommutes(s.ledger + [row], e.tenant, original.id);
  }

  lemma InflateCommutes(s: Store, e: Env)
    requires Inv(s) && WellFormed(s, e) && DrawsAreFresh(s, e) && e.request.Inflate?
    ensures Commutes(s, e)
  {
    var q, a := e.request, e.tenant;
    if (a, q.key) !in s.batches {
      var rows := InflationRows(e, s.customers, q.rate, q.slots);
      BatchCommutes(e, s.customers, q.rate, q.slots);
      BatchRowsInsertable(s, e);
      InflatedCommutes(s.customers, a, q.rate);
      BatchWriteCommutes(s, a, rows, InflatedCustomers(s.customers, a, q.rate), q.key,
                         Batch(DebtorCount(s.customers, q.slots), InflationTotal(s.customers, q.rate, q.slots)));
    }
  }

  lemma BatchRowsInsertable(s: Store, e: Env)
    requires DrawsAreFresh(s, e) && e.request.Inflate?
    ensures var rows := InflationRows(e, s.customers, e.request.rate, e.request.slots);
            && (forall j | 0 <= j < |rows| :: rows[j].tenant == e.tenant)
            && (Insertable(RowsOf(s.ledger, e.tenant), rows) <==> Insertable(s.ledger, rows))
  {
    var q := e.request;
    var rows := InflationRows(e, s.customers, q.rate, q.slots);
    BatchRowIds(e, s.customers, q.rate, q.slots);
    forall j | 0 <= j < |rows| ensures DrawnFor(rows[j], e.tenant, q.slots) {
    }
    forall i, j | 0 <= i < |s.ledger| && 0 <= j < |rows| && s.ledger[i].tenant != e.tenant
      ensures s.ledger[i].id != rows[j].id
    {
      assert DrawnFor(rows[j], e.tenant, q.slots);
      var k :| 0 <= k < |q.slots| && q.slots[k].rowId == rows[j].id;
    }
    InsertableCommutes(s.ledger, rows, e.tenant);
  }

  lemma BatchWriteCommutes(s: Store, a: Uuid, rows: seq<Row>, customers: map<Uuid, Customer>, key: Uuid, b: Batch)
    requires forall j | 0 <= j < |rows| :: rows[j].tenant == a
    ensures var p := Project(s, a);
            && Project(s.(ledger := s.ledger + rows, customers := customers, batches := s.batches[(a, key) := b]), a)
               == p.(ledger := p.ledger + rows, customers := CustomersOf(customers, a),
                   batches := p.batches[(a, key) := b])
  {
    hide BatchesOf;
    RowsOfAppend(s.ledger, rows, a);
    RowsOfOwn(rows, a, a);
    BatchesCommute(s.batches, a, key, b);
  }

  lemma BatchesCommute(batches: map<(Uuid, Uuid), Batch>, a: Uuid, key: Uuid, b: Batch)
    ensures BatchesOf(batches[(a, key) := b], a) == BatchesOf(batches, a)[(a, key) := b]
  {
  }

  lemma TenantsCommute(tenants: map<Uuid, Tenant>, a: Uuid, t: Tenant)
    requires a in tenants
    ensures TenantsOf(tenants[a := t], a) == TenantsOf(tenants, a)[a := t]
  {
  }

  lemma InflatedCommutes(customers: map<Uuid, Customer>, tenant: Uuid, rate: Rate)
    requires Solvent(customers)
    ensures var after := InflatedCustomers(customers, tenant, rate);
            && CustomersOf(after, tenant) == InflatedCustomers(CustomersOf(customers, tenant), tenant, rate)
            && (InflationFits(after) <==>
                  InflationFits(InflatedCustomers(CustomersOf(customers, tenant), tenant, rate)))
  {
    var after := InflatedCustomers(customers, tenant, rate);
    var own := InflatedCustomers(CustomersOf(customers, tenant), tenant, rate);
    assert forall c | c in after ::
      if after[c].tenant == tenant then c in own && own[c] == after[c] else after[c] == customers[c];
    assert forall c | c in own :: c in after && after[c] == own[c];
  }

  lemma OwnedSeenAlike(s: Store, tenant: Uuid)
    ensures forall c :: Owns(Project(s, tenant), tenant, c) <==> Owns(s, tenant, c)
    ensures forall c | Owns(s, tenant, c) :: Project(s, tenant).customers[c] == s.customers[c]
  {
  }

  lemma KeysSeenAlike(s: Store, tenant: Uuid, key: Uuid)
    ensures forall c :: KeyTaken(Project(s, tenant), tenant, key, c) <==> KeyTaken(s, tenant, key, c)
  {
    OwnedSeenAlike(s, tenant);
  }

  /** A client key names one customer at most. */
  lemma KeyNamesOne(s: Store, tenant: Uuid, key: Uuid, c: Uuid, d: Uuid)
    requires Solvent(s.customers) && KeyTaken(s, tenant, key, c) && KeyTaken(s, tenant, key, d)
    ensures c == d
  {
  }

  lemma CreateReplayCommutes(s: Store, e: Env, c: Uuid)
    requires Solvent(s.customers) && e.request.CreateCustomer? && e.request.newKey.Some?
    requires KeyTaken(s, e.tenant, e.request.newKey.value, c)
    ensures ApplyCreate(s, e) == Outcome(s, CustomerSaved(c, s.customers[c]))
  {
    var key := e.request.newKey.value;
    forall d | KeyTaken(s, e.tenant, key, d) ensures d == c {
      KeyNamesOne(s, e.tenant, key, c, d);
    }
  }

  lemma CreateCommutes(s: Store, e: Env)
    requires Inv(s) && DrawsAreFresh(s, e) && e.request.CreateCustomer?
    ensures Commutes(s, e)
  {
    hide Unique, Linked, Tidy, Owned, Semaphore, Sealed, DniInUse, PhoneInUse;
    var q, a, p := e.request, e.tenant, Project(s, e.tenant);
    OwnedSeenAlike(s, a);
    if q.newKey.Some? && exists c :: KeyTaken(s, a, q.newKey.value, c) {
      var c :| KeyTaken(s, a, q.newKey.value, c);
      KeysSeenAlike(s, a, q.newKey.value);
      assert Solvent(p.customers);
      CreateReplayCommutes(s, e, c);
      CreateReplayCommutes(p, e, c);
    } else {
      if q.newKey.Some? {
        KeysSeenAlike(s, a, q.newKey.value);
      }
      ContactsCommute(s, a, if q.phone.Some? then q.phone.value else "", if q.dni.Some? then q.dni.value else "");
      CustomerUpdateCommutes(s.customers, a, q.id, NewCustomer(e));
    }
  }

  lemma ContactsCommute(s: Store, tenant: Uuid, phone: string, dni: string)
    ensures PhoneInUse(Project(s, tenant), tenant, phone) <==> PhoneInUse(s, tenant, phone)
    ensures DniInUse(Project(s, tenant), tenant, dni) <==> DniInUse(s, tenant, dni)
  {
    var p := Project(s, tenant);
    assert forall c :: Owns(p, tenant, c) <==> Owns(s, tenant, c);
    assert forall c | Owns(s, tenant, c) :: p.customers[c] == s.customers[c];
  }

  lemma AccountCommutes(s: Store, e: Env)
    requires e.request.SetLimit? || e.request.ToggleBlock?
    ensures Commutes(s, e)
  {
    var id := e.request.customer;
    if Owns(s, e.tenant, id) {
      CustomerUpdateCommutes(s.customers, e.tenant, id, Apply(s, e).store.customers[id]);
    }
  }

  lemma MergeCommutes(s: Store, e: Env)
    requires e.request.Merge?
    ensures Commutes(s, e)
  {
    var q, a := e.request, e.tenant;
    if q.primary != q.secondary && Owns(s, a, q.primary) && Owns(s, a, q.secondary) {
      var (p, r) := Absorb(s.customers[q.primary], s.customers[q.secondary]);
      MoveCommutes(s.ledger, a, a, q.secondary, q.primary);
      CustomerUpdateCommutes(s.customers, a, q.primary, p);
      CustomerUpdateCommutes(s.customers[q.primary := p], a, q.secondary, r);
    }
  }

  lemma TenantSeenAlike(s: Store, tenant: Uuid)
    ensures tenant in Project(s, tenant).tenants <==> tenant in s.tenants
    ensures tenant in s.tenants ==> Project(s, tenant).tenants[tenant] == s.tenants[tenant]
  {
  }

  lemma OpenCommutes(s: Store, e: Env)
    requires DrawsAreFresh(s, e) && e.request.OpenTurn?
    ensures Commutes(s, e)
  {
    hide TenantsOf;
    var q, a := e.request, e.tenant;
    ShiftsOfMembers(s.shifts, a);
    var own := ShiftsOf(s.shifts, a);
    if i: int :| 0 <= i < |s.shifts| && s.shifts[i].id == q.shiftId {
      assert s.shifts[i] in own;
    }
    if k: int :| 0 <= k < |own| && own[k].id == q.shiftId {
      assert own[k] in own;
    }
    if Apply(s, e).reply.ShiftSaved? {
      var h := Apply(s, e).reply.shift;
      assert (s.shifts + [h])[..|s.shifts|] == s.shifts;
    }
    TenantSeenAlike(s, a);
    if a in s.tenants {
      TenantsCommute(s.tenants, a, Tenant(Some(q.shiftId)));
    }
  }

  lemma CloseCommutes(s: Store, e: Env)
    requires Inv(s) && e.request.CloseTurn?
    ensures Commutes(s, e)
  {
    hide Inv, TenantsOf, CustomersOf, BatchesOf, Int4, CashDue, FindOpenById, RowsOf, ShiftsOf, SaveShift, Freeze,
      ApplyClose;
    var a, p := e.tenant, Project(s, e.tenant);
    TenantSeenAlike(s, a);
    CloseRefusalServes(s, e);
    CloseRefusalServes(p, e);
    if a in s.tenants && s.tenants[a].activeShift.Some? {
      ShiftLookupsCommute(s.shifts, a, s.tenants[a].activeShift.value);
      var found := FindOpenById(s.shifts, a, s.tenants[a].activeShift.value);
      if found.Some? {
        SumsCommute(s.ledger, a, found.value.openedAt);
        var h := Closed(found.value, e.now, CashDue(s.ledger, a, found.value.openedAt), e.request.actual,
            e.request.note);
        CloseWriteCommutes(s, found.value, h);
        CloseServes(s, e, found.value, h);
        CloseServes(p, e, found.value, h);
      }
    }
  }

  lemma CloseWriteCommutes(s: Store, open: Shift, h: Shift)
    requires Inv(s) && open in s.shifts && h.id == open.id && h.tenant == open.tenant && h.tenant in s.tenants
    ensures var a, p := h.tenant, Project(s, h.tenant);
            && Project(s.(shifts := SaveShift(s.shifts, h), ledger := Freeze(s.ledger, a, open.openedAt, h.id),
                          tenants := s.tenants[a := Tenant(None)]), a)
               == p.(shifts := SaveShift(p.shifts, h), ledger := Freeze(p.ledger, a, open.openedAt, h.id),
                     tenants := p.tenants[a := Tenant(None)])
  {
    hide Linked, Tidy, Owned, Solvent, Semaphore, Unique, Accounted, Freeze, TenantsOf;
    var k :| 0 <= k < |s.shifts| && s.shifts[k] == open;
    ShiftSaveCommutes(s.shifts, h, h.tenant);
    FreezeCommutes(s.ledger, h.tenant, h.tenant, open.openedAt, h.id);
    TenantsCommute(s.tenants, h.tenant, Tenant(None));
  }

  /** Serving a request and looking at its tenant commute, for every request. */
  lemma StepCommutes(s: Store, e: Env)
    requires Inv(s) && WellFormed(s, e) && DrawsAreFresh(s, e)
    ensures Commutes(s, e)
  {
    hide Inv, WellFormed, DrawsAreFresh, Commutes;
    match e.request
    case Reverse(_, _, _) => ReverseCommutes(s, e);
    case Inflate(_, _, _) => InflateCommutes(s, e);
    case CreateCustomer(_, _, _, _, _) => CreateCommutes(s, e);
    case SetLimit(_, _) => AccountCommutes(s, e);
    case ToggleBlock(_) => AccountCommutes(s, e);
    case Merge(_, _) => MergeCommutes(s, e);
    case OpenTurn(_, _) => OpenCommutes(s, e);
    case CloseTurn(_, _) => CloseCommutes(s, e);
    case _ => PostingCommutes(s, e);
  }

  /** Non-interference: where two databases agree on a tenant's rows, a request of that tenant
      gets the same answer and leaves the same rows, whatever the other tenants hold. */
  lemma NonInterference(s: Store, t: Store, e: Env)
    requires Inv(s) && WellFormed(s, e) && DrawsAreFresh(s, e)
    requires Inv(t) && WellFormed(t, e) && DrawsAreFresh(t, e)
    requires Project(s, e.tenant) == Project(t, e.tenant)
    ensures Apply(s, e).reply == Apply(t, e).reply
    ensures Project(Apply(s, e).store, e.tenant) == Project(Apply(t, e).store, e.tenant)
  {
    StepCommutes(s, e);
    StepCommutes(t, e);
  }

  // ─── Other tenants ─────────────────────────────────────────────────────

  ghost predicate Leaves(s: Store, t: Store, tenant: Uuid) {
    Project(t, tenant) == Project(s, tenant)
  }

  lemma AppendLeaves(s: Store, rows: seq<Row>, customers: map<Uuid, Customer>,
                     batches: map<(Uuid, Uuid), Batch>, a: Uuid, b: Uuid)
    requires a != b
    requires forall j | 0 <= j < |rows| :: rows[j].tenant == a
    requires CustomersOf(customers, b) == CustomersOf(s.customers, b)
    requires forall k | k in batches || k in s.batches ::
      k.0 == b ==> k in batches && k in s.batches && batches[k] == s.batches[k]
    ensures Leaves(s, s.(ledger := s.ledger + rows, customers := customers, batches := batches), b)
  {
    RowsOfAppend(s.ledger, rows, b);
    RowsOfOwn(rows, b, a);
    var t := s.(ledger := s.ledger + rows, customers := customers, batches := batches);
    assert BatchesOf(t.batches, b) == BatchesOf(s.batches, b);
  }

  lemma CustomerUpdateLeaves(customers: map<Uuid, Customer>, id: Uuid, c: Customer, b: Uuid)
    requires c.tenant != b && (id in customers ==> customers[id].tenant != b)
    ensures CustomersOf(customers[id := c], b) == CustomersOf(customers, b)
  {
  }

  lemma PostingLeaves(s: Store, e: Env, b: Uuid)
    requires IsPosting(e.request) && b != e.tenant
    ensures Leaves(s, ApplyPosting(s, e).store, b)
  {
    if ApplyPosting(s, e).store != s {
      var q := e.request;
      var d := Decide(e, s.customers[q.customer]);
      assert forall j | 0 <= j < |d.rows| :: d.rows[j].tenant == e.tenant;
      CustomerUpdateLeaves(s.customers, q.customer, d.customer, b);
      AppendLeaves(s, d.rows, s.customers[q.customer := d.customer], s.batches, e.tenant, b);
    }
  }

  lemma ReverseLeaves(s: Store, e: Env, b: Uuid)
    requires Inv(s) && e.request.Reverse? && b != e.tenant
    ensures Leaves(s, ApplyReverse(s, e).store, b)
  {
    if ApplyReverse(s, e).store != s {
      var o := ReverseShape(s, e);
      var original := s.ledger[o];
      var marked := s.ledger[o := original.(reversed := true)];
      var before := s.customers[original.customer];
      var undone := before.(balance := Undo(original, before.balance));
      Untouched(s.ledger, marked, b);
      CustomerUpdateLeaves(s.customers, original.customer, undone, b);
      AppendLeaves(s.(ledger := marked), [ReversalRow(e, original)],
                   s.customers[original.customer := undone], s.batches, e.tenant, b);
    }
  }

  lemma InflateLeaves(s: Store, e: Env, b: Uuid)
    requires e.request.Inflate? && b != e.tenant
    ensures Leaves(s, ApplyInflate(s, e).store, b)
  {
    var o := ApplyInflate(s, e);
    if o.store != s {
      var q := e.request;
      var rows := InflationRows(e, s.customers, q.rate, q.slots);
      BatchRowIds(e, s.customers, q.rate, q.slots);
      forall j | 0 <= j < |rows| ensures rows[j].tenant == e.tenant {
        assert DrawnFor(rows[j], e.tenant, q.slots);
      }
      AppendLeaves(s, rows, o.store.customers, o.store.batches, e.tenant, b);
    }
  }

  lemma CustomersLeave(s: Store, e: Env, b: Uuid)
    requires e.request.CreateCustomer? || e.request.SetLimit? || e.request.ToggleBlock?
    requires b != e.tenant
    ensures Leaves(s, Apply(s, e).store, b)
  {
  }

  lemma MergeLeaves(s: Store, e: Env, b: Uuid)
    requires e.request.Merge? && b != e.tenant
    ensures Leaves(s, ApplyMerge(s, e).store, b)
  {
    if ApplyMerge(s, e).store != s {
      var q := e.request;
      var (p, r) := Absorb(s.customers[q.primary], s.customers[q.secondary]);
      Untouched(s.ledger, MoveRows(s.ledger, e.tenant, q.secondary, q.primary), b);
      CustomerUpdateLeaves(s.customers, q.primary, p, b);
      CustomerUpdateLeaves(s.customers[q.primary := p], q.secondary, r, b);
    }
  }

  lemma OpenLeaves(s: Store, e: Env, b: Uuid)
    requires e.request.OpenTurn? && b != e.tenant
    ensures Leaves(s, ApplyOpen(s, e).store, b)
  {
    var t := ApplyOpen(s, e).store;
    if t != s {
      assert t.shifts[..|t.shifts| - 1] == s.shifts;
    }
  }

  lemma CloseLeaves(s: Store, e: Env, b: Uuid)
    requires Inv(s) && e.request.CloseTurn? && b != e.tenant
    ensures Leaves(s, ApplyClose(s, e).store, b)
  {
    hide Linked, Tidy, Owned, Solvent, Semaphore, Unique, Accounted;
    var t := ApplyClose(s, e).store;
    if t != s {
      var k := CloseShape(s, e);
      var h := s.shifts[k];
      ShiftSaveCommutes(s.shifts, t.shifts[k], b);
      assert t.shifts == SaveShift(s.shifts, t.shifts[k]);
      Untouched(s.ledger, Freeze(s.ledger, e.tenant, h.openedAt, h.id), b);
    }
  }

  /** A request leaves every other tenant's rows as they were. */
  lemma StepLeavesOthers(s: Store, e: Env, b: Uuid)
    requires Inv(s) && b != e.tenant
    ensures Leaves(s, Apply(s, e).store, b)
  {
    hide Inv, Leaves;
    match e.request
    case Reverse(_, _, _) => ReverseLeaves(s, e, b);
    case Inflate(_, _, _) => InflateLeaves(s, e, b);
    case CreateCustomer(_, _, _, _, _) => CustomersLeave(s, e, b);
    case SetLimit(_, _) => CustomersLeave(s, e, b);
    case ToggleBlock(_) => CustomersLeave(s, e, b);
    case Merge(_, _) => MergeLeaves(s, e, b);
    case OpenTurn(_, _) => OpenLeaves(s, e, b);
    case CloseTurn(_, _) => CloseLeaves(s, e, b);
    case _ => PostingLeaves(s, e, b);
  }

  // ─── Whole runs ────────────────────────────────────────────────────────

  /** A tenant's own requests. */
  function RequestsOf(es: seq<Env>, tenant: Uuid): seq<Env> {
    if es == [] then []
    else
      var front, last := RequestsOf(es[..|es| - 1], tenant), es[|es| - 1];
      if last.tenant == tenant then front + [last] else front
  }

  ghost predicate FreshRun(s: Store, es: seq<Env>) {
    es == [] || (FreshRun(s, es[..|es| - 1]) && DrawsAreFresh(Run(s, es[..|es| - 1]), es[|es| - 1]))
  }

  /** Isolation over any run: what a tenant sees in the end is what it would see had only its
      own requests been served, on its own rows. */
  lemma {:induction false} RunIsolation(s: Store, es: seq<Env>, tenant: Uuid)
    requires Inv(s) && WellFormedRun(s, es) && FreshRun(s, es)
    ensures Project(Run(s, es), tenant) == Run(Project(s, tenant), RequestsOf(es, tenant))
  {
    if es != [] {
      var n := |es| - 1;
      var at, e, own := Run(s, es[..n]), es[n], RequestsOf(es, tenant);
      RunIsolation(s, es[..n], tenant);
      RunKeepsInv(s, es[..n]);
      if e.tenant == tenant {
        StepCommutes(at, e);
        assert own[..|own| - 1] == RequestsOf(es[..n], tenant);
      } else {
        StepLeavesOthers(at, e, tenant);
      }
    }
  }
}
