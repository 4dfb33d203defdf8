/** What every step keeps about the shape of the tables: ids, keys, reversal links, payment
    groups, ownership, and the cash semaphore. */
module Invariants {
  import opened Domain
  import opened Rounding
  import opened Ledger
  import opened Till
  import opened Engine

  // ─── Reversal links ────────────────────────────────────────────────────

  /** `v` is the reversal of `o`. */
  predicate Undoes(v: Row, o: Row) {
    && v.kind == REVERSAL && v.reverses == Some(o.id) && o.reversed
    && v.tenant == o.tenant && v.customer == o.customer && v.amount == o.amount
  }

  ghost predicate HasOriginal(l: seq<Row>, i: nat)
    requires i < |l|
  {
    exists j :: 0 <= j < i && Undoes(l[i], l[j])
  }

  ghost predicate HasReversal(l: seq<Row>, i: nat)
    requires i < |l|
  {
    exists k :: i < k < |l| && Undoes(l[k], l[i])
  }

  predicate SameTarget(a: Row, b: Row) {
    a.kind == REVERSAL && b.kind == REVERSAL && a.reverses == b.reverses
  }

  /** Every reversal undoes an earlier row, every reversed row is undone by a later one, and no
      row is undone twice: reversed rows and REVERSAL rows are in one-to-one correspondence. */
  ghost predicate Linked(l: seq<Row>) {
    && (forall i {:trigger HasOriginal(l, i)} | 0 <= i < |l| && l[i].kind == REVERSAL :: HasOriginal(l, i))
    && (forall i {:trigger HasReversal(l, i)} | 0 <= i < |l| && l[i].reversed :: HasReversal(l, i))
    && (forall i, j {:trigger SameTarget(l[i], l[j])} | 0 <= i < j < |l| :: !SameTarget(l[i], l[j]))
    && (forall i | 0 <= i < |l| && l[i].kind != REVERSAL :: l[i].reverses.None?)
  }

  /** A row as a posting or the batch inserts it. */
  predicate Plain(r: Row) {
    r.kind != REVERSAL && !r.reversed && r.reverses.None? && r.shift.None? && 0 <= r.amount
  }

  /** The links of `l` at `i`, seen in a list `m` that keeps them. */
  lemma LinksCarryOver(l: seq<Row>, m: seq<Row>, i: nat)
    requires i < |l| <= |m|
    requires forall j, k | 0 <= j < |l| && 0 <= k < |l| && Undoes(l[j], l[k]) :: Undoes(m[j], m[k])
    ensures HasOriginal(l, i) ==> HasOriginal(m, i)
    ensures HasReversal(l, i) ==> HasReversal(m, i)
  {
    if HasOriginal(l, i) {
      var j :| 0 <= j < i && Undoes(l[i], l[j]);
      assert Undoes(m[i], m[j]);
    }
    if HasReversal(l, i) {
      var k :| i < k < |l| && Undoes(l[k], l[i]);
      assert Undoes(m[k], m[i]);
    }
  }

  lemma AppendKeepsLinked(l: seq<Row>, rows: seq<Row>)
    requires Linked(l)
    requires forall i | 0 <= i < |rows| :: Plain(rows[i])
    ensures Linked(l + rows)
  {
    var m := l + rows;
    forall i | 0 <= i < |m| && m[i].kind == REVERSAL ensures HasOriginal(m, i) {
      LinksCarryOver(l, m, i);
    }
    forall i | 0 <= i < |m| && m[i].reversed ensures HasReversal(m, i) {
      LinksCarryOver(l, m, i);
    }
    forall i, j | 0 <= i < j < |m| ensures !SameTarget(m[i], m[j]) {
      if j < |l| {
        assert !SameTarget(l[i], l[j]);
      }
    }
  }

  /** The ledger after a reversal: one row marked, one appended. */
  lemma MarkedShape(l: seq<Row>, row: Row, o: nat)
    requires Unique(l + [row]) && o < |l|
    ensures MarkReversed(l + [row], l[o].id) == l[o := l[o].(reversed := true)] + [row]
  {
    var before := l + [row];
    forall i | 0 <= i < |before| && i != o ensures before[i].id != l[o].id {
      assert !Clash(before[Min(i, o)], before[Max(i, o)]);
    }
  }

  lemma ReverseKeepsLinked(l: seq<Row>, row: Row, o: nat)
    requires Linked(l)
    requires forall i, j | 0 <= i < j < |l| :: l[i].id != l[j].id
    requires o < |l| && !l[o].reversed
    requires !row.reversed && Undoes(row, l[o].(reversed := true))
    ensures Linked(l[o := l[o].(reversed := true)] + [row])
  {
    var marked := l[o := l[o].(reversed := true)];
    var m := marked + [row];
    assert m[o] == l[o].(reversed := true) && m[|l|] == row;
    forall j, k | 0 <= j < |l| && 0 <= k < |l| && Undoes(l[j], l[k]) ensures Undoes(m[j], m[k]) {
      var mj, mk := m[j], m[k];
      assert mj == l[j].(reversed := mj.reversed) && mk == l[k].(reversed := mk.reversed);
    }
    forall i | 0 <= i < |m| && m[i].kind == REVERSAL ensures HasOriginal(m, i) {
      if i == |l| {
        assert Undoes(m[i], m[o]);
      } else {
        LinksCarryOver(l, m, i);
        assert HasOriginal(l, i);
      }
    }
    forall i | 0 <= i < |m| && m[i].reversed ensures HasReversal(m, i) {
      if i == o {
        assert Undoes(m[|l|], m[o]);
      } else {
        LinksCarryOver(l, m, i);
        assert HasReversal(l, i);
      }
    }
    forall i, j | 0 <= i < j < |m| ensures !SameTarget(m[i], m[j]) {
      if j < |l| {
        assert !SameTarget(l[i], l[j]);
      } else {
        NotYetUndone(l, o, i);
      }
    }
  }

  lemma NotYetUndone(l: seq<Row>, o: nat, i: nat)
    requires Linked(l) && o < |l| && !l[o].reversed && i < |l|
    requires forall i, j | 0 <= i < j < |l| :: l[i].id != l[j].id
    ensures l[i].kind == REVERSAL ==> l[i].reverses != Some(l[o].id)
  {
    if l[i].kind == REVERSAL {
      assert HasOriginal(l, i);
      var k :| 0 <= k < i && Undoes(l[i], l[k]);
      assert k < o ==> l[k].id != l[o].id;
      assert o < k ==> l[o].id != l[k].id;
    }
  }

  /** A row-wise update that keeps the linking columns keeps the links. */
  lemma UpdateKeepsLinked(l: seq<Row>, m: seq<Row>)
    requires Linked(l) && |m| == |l|
    requires forall i | 0 <= i < |l| :: m[i] == l[i].(customer := m[i].customer, shift := m[i].shift)
    requires forall i, j | 0 <= i < |l| && 0 <= j < |l| && Undoes(l[i], l[j]) :: m[i].customer == m[j].customer
    ensures Linked(m)
  {
    forall i | 0 <= i < |m| && m[i].kind == REVERSAL ensures HasOriginal(m, i) {
      LinksCarryOver(l, m, i);
    }
    forall i | 0 <= i < |m| && m[i].reversed ensures HasReversal(m, i) {
      LinksCarryOver(l, m, i);
    }
    forall i, j | 0 <= i < j < |m| ensures !SameTarget(m[i], m[j]) {
      assert !SameTarget(l[i], l[j]);
    }
  }

  // ─── Rows: amounts, groups, owners ─────────────────────────────────────

  /** Amounts are not negative; only payments carry a group or a shift; a group stays in one
      tenant and has at most one row per method. */
  ghost predicate Tidy(l: seq<Row>) {
    && (forall i | 0 <= i < |l| :: 0 <= l[i].amount)
    && (forall i | 0 <= i < |l| && l[i].group.Some? :: l[i].kind == PAYMENT && l[i].paidBy.Some?)
    && (forall i | 0 <= i < |l| && l[i].shift.Some? :: l[i].kind == PAYMENT)
    && (forall i, j | 0 <= i < j < |l| && l[i].group.Some? && l[i].group == l[j].group ::
          l[i].tenant == l[j].tenant && l[i].paidBy != l[j].paidBy)
  }

  /** Each row belongs to a customer of its own tenant. */
  ghost predicate Owned(l: seq<Row>, customers: map<Uuid, Customer>) {
    forall i | 0 <= i < |l| ::
      l[i].customer in customers && customers[l[i].customer].tenant == l[i].tenant
  }

  /** Balances are non-negative, both amounts fit their columns, and client keys are unique
      per tenant. */
  ghost predicate Solvent(customers: map<Uuid, Customer>) {
    && (forall c | c in customers :: 0 <= customers[c].balance <= INT4_MAX && Int4(customers[c].limit))
    && (forall c, d | c in customers && d in customers && c != d ::
          !(customers[c].tenant == customers[d].tenant && customers[c].key.Some?
            && customers[c].key == customers[d].key))
  }

  // ─── Shifts ────────────────────────────────────────────────────────────

  /** The semaphore of a tenant is set exactly when the tenant has an open shift, and it
      names the only one. */
  ghost predicate Semaphore(tenants: map<Uuid, Tenant>, shifts: seq<Shift>) {
    && (forall i | 0 <= i < |shifts| && shifts[i].status == OPEN ::
          shifts[i].tenant in tenants && tenants[shifts[i].tenant].activeShift == Some(shifts[i].id))
    && (forall t | t in tenants && tenants[t].activeShift.Some? ::
          exists i :: 0 <= i < |shifts| && IsOpenOf(shifts[i], t) && tenants[t].activeShift == Some(shifts[i].id))
  }

  /** A closed shift accounts for exactly the cash frozen into it. */
  ghost predicate Accounted(h: Shift, l: seq<Row>) {
    && h.closedAt.Some? && h.expected == Some(h.opening + CashIn(l, h.id))
    && h.actual.Some? && h.discrepancy == Some(h.actual.value - h.expected.value)
    && (h.status == CLOSED_OK <==> h.discrepancy == Some(0))
  }

  /** Closed shifts account for their rows, open ones hold none, and every frozen row sits in
      a closed shift of its tenant. */
  ghost predicate Sealed(l: seq<Row>, shifts: seq<Shift>) {
    && UniqueShifts(shifts)
    && (forall i | 0 <= i < |shifts| :: shifts[i].status != OPEN ==> Accounted(shifts[i], l))
    && (forall i | 0 <= i < |shifts| :: shifts[i].status == OPEN ==> shifts[i].closedAt.None?)
    && (forall i | 0 <= i < |l| && l[i].shift.Some? ::
          exists j :: 0 <= j < |shifts| && HoldsRow(shifts[j], l[i]))
  }

  predicate HoldsRow(h: Shift, r: Row) {
    r.shift == Some(h.id) && h.tenant == r.tenant && h.status != OPEN
  }

  // ─── The invariant ─────────────────────────────────────────────────────

  ghost predicate Inv(s: Store) {
    && Unique(s.ledger) && Linked(s.ledger) && Tidy(s.ledger)
    && Owned(s.ledger, s.customers) && Solvent(s.customers)
    && Semaphore(s.tenants, s.shifts) && Sealed(s.ledger, s.shifts)
  }

  // ─── Postings ──────────────────────────────────────────────────────────

  /** What a posting decides: plain rows of its own tenant and customer whose amounts take the
      balance, exactly and without going below zero, from old to new. */
  lemma DecideIsSound(e: Env, c: Customer, s: Store)
    requires IsPosting(e.request) && WellFormed(s, e)
    requires e.request.RegisterMixed? ==> e.request.cash + e.request.transfer == e.request.total
    requires 0 <= c.balance
    requires Decide(e, c).Write?
    ensures var d := Decide(e, c);
            && 1 <= |d.rows| <= 2
            && (forall i | 0 <= i < |d.rows| ::
                  && Plain(d.rows[i]) && d.rows[i].tenant == e.tenant
                  && d.rows[i].customer == e.request.customer && d.rows[i].createdAt == e.now)
            && d.rows[0].key == e.request.key
            && 0 <= d.customer.balance
            && d.customer == c.(balance := d.customer.balance)
            && d.customer.balance == c.balance + Net(d.rows, d.rows, e.request.customer)
            && Tidy(d.rows)
            && (forall i | 0 <= i < |d.rows| && d.rows[i].group.Some? ::
                  e.request.RegisterMixed? && d.rows[i].group.value == e.request.groupId)
  {
    var d := Decide(e, c);
    if e.request.RegisterMixed? {
      var q := e.request;
      ProrateSplitsExactly(q.total, q.cash, q.transfer, c.balance, q.drift);
      NetAppend([d.rows[0]], [d.rows[1]], d.rows, q.customer);
      assert d.rows == [d.rows[0]] + [d.rows[1]];
    } else {
      assert d.rows[..|d.rows| - 1] == [];
    }
  }

  lemma AppendKeepsTidy(l: seq<Row>, rows: seq<Row>)
    requires Tidy(l) && Tidy(rows)
    requires forall i, j | 0 <= i < |l| && 0 <= j < |rows| && rows[j].group.Some? :: l[i].group != rows[j].group
    ensures Tidy(l + rows)
  {
  }

  lemma AppendKeepsSealed(l: seq<Row>, rows: seq<Row>, shifts: seq<Shift>)
    requires Sealed(l, shifts)
    requires forall i | 0 <= i < |rows| :: rows[i].shift.None?
    ensures Sealed(l + rows, shifts)
  {
    forall i | 0 <= i < |shifts| && shifts[i].status != OPEN ensures Accounted(shifts[i], l + rows) {
      FrozenSumsAppend(l, rows, shifts[i].id);
    }
  }

  /** Customers whose balances and limits may have changed, but not who they are. */
  ghost predicate SameAccounts(a: map<Uuid, Customer>, b: map<Uuid, Customer>) {
    && a.Keys == b.Keys
    && forall c | c in a ::
         b[c].tenant == a[c].tenant && b[c].key == a[c].key && (Int4(a[c].limit) ==> Int4(b[c].limit))
  }

  lemma AppendKeepsInv(s: Store, rows: seq<Row>, customers: map<Uuid, Customer>, batches: map<(Uuid, Uuid), Batch>)
    requires Inv(s) && Insertable(s.ledger, rows) && Tidy(rows)
    requires forall i | 0 <= i < |rows| :: Plain(rows[i])
    requires forall i, j | 0 <= i < |s.ledger| && 0 <= j < |rows| && rows[j].group.Some? ::
      s.ledger[i].group != rows[j].group
    requires Owned(rows, s.customers)
    requires SameAccounts(s.customers, customers)
    requires forall c | c in customers :: 0 <= customers[c].balance <= INT4_MAX
    ensures Inv(s.(ledger := s.ledger + rows, customers := customers, batches := batches))
  {
    InsertKeepsUnique(s.ledger, rows);
    AppendKeepsLinked(s.ledger, rows);
    AppendKeepsTidy(s.ledger, rows);
    AppendKeepsSealed(s.ledger, rows, s.shifts);
    assert Owned(s.ledger + rows, customers);
    assert Solvent(customers);
  }

  lemma PostingKeepsInv(s: Store, e: Env)
    requires Inv(s) && WellFormed(s, e) && IsPosting(e.request)
    ensures Inv(ApplyPosting(s, e).store)
  {
    hide Linked, Unique, Semaphore, Sealed, Insertable, Decide;
    var o := ApplyPosting(s, e);
    if o.store != s {
      var q := e.request;
      var c := s.customers[q.customer];
      var d := Decide(e, c);
      DecideIsSound(e, c, s);
      AppendKeepsInv(s, d.rows, s.customers[q.customer := d.customer], s.batches);
    }
  }

  // ─── Reversal ──────────────────────────────────────────────────────────

  lemma AtIndex(l: seq<Row>, r: Row) returns (i: nat)
    requires r in l
    ensures i < |l| && l[i] == r
  {
    i :| 0 <= i < |l| && l[i] == r;
  }

  /** A row-wise update of the reversed flag leaves every shift sealed. */
  lemma MarkKeepsSealed(l: seq<Row>, o: nat, shifts: seq<Shift>)
    requires Sealed(l, shifts) && o < |l|
    ensures Sealed(l[o := l[o].(reversed := true)], shifts)
  {
    var m := l[o := l[o].(reversed := true)];
    forall i | 0 <= i < |shifts| && shifts[i].status != OPEN ensures Accounted(shifts[i], m) {
      FrozenSumsPointwise(l, m, shifts[i].id);
    }
    forall i | 0 <= i < |m| && m[i].shift.Some?
      ensures exists j :: 0 <= j < |shifts| && HoldsRow(shifts[j], m[i])
    {
      var j :| 0 <= j < |shifts| && HoldsRow(shifts[j], l[i]);
      assert HoldsRow(shifts[j], m[i]);
    }
  }

  /** The shape of a successful reversal. */
  lemma ReverseShape(s: Store, e: Env) returns (o: nat)
    requires Unique(s.ledger) && e.request.Reverse?
    requires ApplyReverse(s, e).store != s
    ensures o < |s.ledger| && s.ledger[o].tenant == e.tenant && s.ledger[o].id == e.request.target
    ensures !s.ledger[o].reversed && Owns(s, e.tenant, s.ledger[o].customer)
    ensures Insertable(s.ledger, [ReversalRow(e, s.ledger[o])])
    ensures var original := s.ledger[o];
            var c := s.customers[original.customer];
            && Int4(Undo(original, c.balance))
            && ApplyReverse(s, e).store == s.(
                 ledger := s.ledger[o := original.(reversed := true)] + [ReversalRow(e, original)],
                 customers := s.customers[original.customer := c.(balance := Undo(original, c.balance))])
  {
    o := AtIndex(s.ledger, FindTx(s.ledger, e.tenant, e.request.target).value);
    InsertKeepsUnique(s.ledger, [ReversalRow(e, s.ledger[o])]);
    MarkedShape(s.ledger, ReversalRow(e, s.ledger[o]), o);
  }

  lemma ReversedRowsKeepInv(s: Store, row: Row, o: nat, undone: Customer)
    requires Inv(s) && Insertable(s.ledger, [row]) && o < |s.ledger| && !s.ledger[o].reversed
    requires Undoes(row, s.ledger[o].(reversed := true)) && row.group.None? && row.shift.None? && !row.reversed
    requires row.customer in s.customers && 0 <= undone.balance <= INT4_MAX
    requires undone == s.customers[row.customer].(balance := undone.balance)
    ensures Inv(s.(ledger := s.ledger[o := s.ledger[o].(reversed := true)] + [row],
                   customers := s.customers[row.customer := undone]))
  {
    hide Linked, Semaphore, Sealed;
    var marked := s.ledger[o := s.ledger[o].(reversed := true)];
    assert forall i, j | 0 <= i < j < |s.ledger| :: !Clash(s.ledger[i], s.ledger[j]);
    ReverseKeepsLinked(s.ledger, row, o);
    MarkKeepsSealed(s.ledger, o, s.shifts);
    AppendKeepsSealed(marked, [row], s.shifts);
    MarkedIsUniqueAndTidy(s.ledger, row, o);
    hide Unique, Tidy;
    assert Owned(marked + [row], s.customers[row.customer := undone]);
    assert Solvent(s.customers[row.customer := undone]);
  }

  lemma ReverseKeepsInv(s: Store, e: Env)
    requires Inv(s) && e.request.Reverse?
    ensures Inv(ApplyReverse(s, e).store)
  {
    hide Linked, Tidy, Owned, Solvent, Semaphore, Sealed, ApplyReverse;
    if ApplyReverse(s, e).store != s {
      var o := ReverseShape(s, e);
      var original := s.ledger[o];
      var c := s.customers[original.customer];
      ReversedRowsKeepInv(s, ReversalRow(e, original), o, c.(balance := Undo(original, c.balance)));
    }
  }

  lemma MarkedIsUniqueAndTidy(l: seq<Row>, row: Row, o: nat)
    requires Unique(l) && Tidy(l) && Insertable(l, [row]) && o < |l|
    requires row.group.None? && row.shift.None? && 0 <= row.amount
    ensures Unique(l[o := l[o].(reversed := true)] + [row])
    ensures Tidy(l[o := l[o].(reversed := true)] + [row])
  {
    var m := l[o := l[o].(reversed := true)];
    assert forall i | 0 <= i < |l| :: m[i] == l[i].(reversed := m[i].reversed);
    assert forall i, j | 0 <= i < j < |l| :: !Clash(l[i], l[j]);
    assert Unique(m) && Tidy(m);
    assert Insertable(m, [row]) by {
      assert forall i | 0 <= i < |l| :: !Clash(l[i], [row][0]);
    }
    InsertKeepsUnique(m, [row]);
    AppendKeepsTidy(m, [row]);
  }

  // ─── Inflation batch ───────────────────────────────────────────────────

  /** A row as the batch inserts it: the surcharge of one customer of the tenant. */
  predicate IsBatchRow(e: Env, customers: map<Uuid, Customer>, rate: Rate, r: Row) {
    && Plain(r) && r.group.None? && r.tenant == e.tenant && r.kind == INFLATION_ADJUSTMENT
    && r.createdAt == e.now && r.customer in customers && customers[r.customer].tenant == e.tenant
    && 0 < r.amount == Surcharge(customers[r.customer].balance, rate)
  }

  ghost predicate AreBatchRows(e: Env, customers: map<Uuid, Customer>, rate: Rate, rows: seq<Row>) {
    forall i | 0 <= i < |rows| :: IsBatchRow(e, customers, rate, rows[i])
  }

  lemma {:induction false} InflationRowsAreSound(e: Env, customers: map<Uuid, Customer>, rate: Rate, slots: seq<Slot>)
    requires forall i | 0 <= i < |slots| ::
      slots[i].customer in customers && customers[slots[i].customer].tenant == e.tenant
    ensures AreBatchRows(e, customers, rate, InflationRows(e, customers, rate, slots))
  {
    if slots != [] {
      var n := |slots| - 1;
      InflationRowsAreSound(e, customers, rate, slots[..n]);
      var before := InflationRows(e, customers, rate, slots[..n]);
      var amount := SlotSurcharge(customers, slots[n], rate);
      var row := NewRow(e, slots[n].rowId, slots[n].rowKey, slots[n].customer, INFLATION_ADJUSTMENT, amount);
      assert slots[n].customer in customers;
      assert amount > 0 ==> IsBatchRow(e, customers, rate, row);
      assert InflationRows(e, customers, rate, slots) == if amount <= 0 then before else before + [row];
    }
  }

  lemma InflateKeepsInv(s: Store, e: Env)
    requires Inv(s) && WellFormed(s, e) && e.request.Inflate?
    ensures Inv(ApplyInflate(s, e).store)
  {
    var o := ApplyInflate(s, e);
    if o.store != s {
      var q := e.request;
      var rows := InflationRows(e, s.customers, q.rate, q.slots);
      var customers := InflatedCustomers(s.customers, e.tenant, q.rate);
      InflationRowsAreSound(e, s.customers, q.rate, q.slots);
      BatchRowsAreTidy(e, s.customers, q.rate, rows);
      assert SameAccounts(s.customers, customers);
      assert forall c | c in customers :: 0 <= customers[c].balance && Int4(customers[c].balance);
      AppendKeepsInv(s, rows, customers, o.store.batches);
    }
  }

  lemma BatchRowsAreTidy(e: Env, customers: map<Uuid, Customer>, rate: Rate, rows: seq<Row>)
    requires AreBatchRows(e, customers, rate, rows)
    ensures Tidy(rows) && Owned(rows, customers)
    ensures forall i | 0 <= i < |rows| :: Plain(rows[i]) && rows[i].group.None?
  {
  }

  // ─── Customers ─────────────────────────────────────────────────────────

  lemma CreateKeepsInv(s: Store, e: Env)
    requires Inv(s) && e.request.CreateCustomer?
    ensures Inv(ApplyCreate(s, e).store)
  {
    var o := ApplyCreate(s, e);
    if o.store != s {
      var q := e.request;
      forall c | c in s.customers && s.customers[c].tenant == e.tenant && q.newKey.Some?
        ensures s.customers[c].key != q.newKey
      {
        assert !KeyTaken(s, e.tenant, q.newKey.value, c);
      }
      assert Solvent(o.store.customers);
      assert Owned(s.ledger, o.store.customers);
    }
  }

  lemma AccountChangeKeepsInv(s: Store, customers: map<Uuid, Customer>)
    requires Inv(s) && SameAccounts(s.customers, customers)
    requires forall c | c in customers :: 0 <= customers[c].balance <= INT4_MAX
    ensures Inv(s.(customers := customers))
  {
    assert Owned(s.ledger, customers);
  }

  lemma SetLimitKeepsInv(s: Store, e: Env)
    requires Inv(s) && e.request.SetLimit?
    ensures Inv(ApplySetLimit(s, e).store)
  {
    AccountChangeKeepsInv(s, ApplySetLimit(s, e).store.customers);
  }

  lemma ToggleKeepsInv(s: Store, e: Env)
    requires Inv(s) && e.request.ToggleBlock?
    ensures Inv(ApplyToggle(s, e).store)
  {
    AccountChangeKeepsInv(s, ApplyToggle(s, e).store.customers);
  }

  lemma MoveKeepsSealed(l: seq<Row>, m: seq<Row>, shifts: seq<Shift>)
    requires Sealed(l, shifts) && |m| == |l|
    requires forall i | 0 <= i < |l| :: m[i] == l[i].(customer := m[i].customer)
    ensures Sealed(m, shifts)
  {
    forall i | 0 <= i < |shifts| && shifts[i].status != OPEN ensures Accounted(shifts[i], m) {
      FrozenSumsPointwise(l, m, shifts[i].id);
    }
    forall i | 0 <= i < |m| && m[i].shift.Some?
      ensures exists j :: 0 <= j < |shifts| && HoldsRow(shifts[j], m[i])
    {
      var j :| 0 <= j < |shifts| && HoldsRow(shifts[j], l[i]);
      assert HoldsRow(shifts[j], m[i]);
    }
  }

  /** Updating the owner or the shift of rows leaves the unique indexes and groups alone. */
  lemma UpdateKeepsUniqueAndTidy(l: seq<Row>, m: seq<Row>)
    requires Unique(l) && Tidy(l) && |m| == |l|
    requires forall i | 0 <= i < |l| :: m[i] == l[i].(customer := m[i].customer, shift := m[i].shift)
    requires forall i | 0 <= i < |l| && m[i].shift.Some? :: m[i].kind == PAYMENT
    ensures Unique(m) && Tidy(m)
  {
    forall i, j | 0 <= i < j < |m| ensures !Clash(m[i], m[j]) {
      assert !Clash(l[i], l[j]);
    }
  }

  lemma MovedRowsKeepInv(s: Store, tenant: Uuid, q: Uuid, p: Uuid)
    requires Inv(s) && Owns(s, tenant, p) && Owns(s, tenant, q)
    ensures Inv(s.(ledger := MoveRows(s.ledger, tenant, q, p)))
  {
    hide Linked, Unique, Semaphore, Sealed, Solvent;
    var l, m := s.ledger, MoveRows(s.ledger, tenant, q, p);
    MoveKeepsSealed(l, m, s.shifts);
    UpdateKeepsLinked(l, m);
    UpdateKeepsUniqueAndTidy(l, m);
    assert Owned(m, s.customers);
  }

  lemma MergeKeepsInv(s: Store, e: Env)
    requires Inv(s) && e.request.Merge?
    ensures Inv(ApplyMerge(s, e).store)
  {
    hide Linked, Unique, Tidy, Owned, Semaphore, Sealed, MoveRows;
    var o := ApplyMerge(s, e);
    if o.store != s {
      var q := e.request;
      assert Owns(s, e.tenant, q.primary) && Owns(s, e.tenant, q.secondary);
      MovedRowsKeepInv(s, e.tenant, q.secondary, q.primary);
      AccountChangeKeepsInv(s.(ledger := MoveRows(s.ledger, e.tenant, q.secondary, q.primary)), o.store.customers);
    }
  }

  // ─── Cash register ─────────────────────────────────────────────────────

  lemma OpenKeepsInv(s: Store, e: Env)
    requires Inv(s) && e.request.OpenTurn?
    ensures Inv(ApplyOpen(s, e).store)
  {
    hide Linked, Unique, Tidy, Owned, Solvent, Accounted;
    var o := ApplyOpen(s, e);
    if o.store != s {
      var s' := o.store;
      var n := |s.shifts|;
      forall t | t in s'.tenants && s'.tenants[t].activeShift.Some?
        ensures exists i :: 0 <= i < |s'.shifts| && IsOpenOf(s'.shifts[i], t)
                            && s'.tenants[t].activeShift == Some(s'.shifts[i].id)
      {
        if t == e.tenant {
          assert IsOpenOf(s'.shifts[n], t);
        } else {
          var i :| 0 <= i < n && IsOpenOf(s.shifts[i], t) && s.tenants[t].activeShift == Some(s.shifts[i].id);
          assert IsOpenOf(s'.shifts[i], t);
        }
      }
      forall i | 0 <= i < |s.ledger| && s.ledger[i].shift.Some?
        ensures exists j :: 0 <= j < |s'.shifts| && HoldsRow(s'.shifts[j], s.ledger[i])
      {
        var j :| 0 <= j < n && HoldsRow(s.shifts[j], s.ledger[i]);
        assert HoldsRow(s'.shifts[j], s.ledger[i]);
      }
    }
  }

  /** The shape of a successful close: one open shift becomes closed, its due rows frozen. */
  lemma CloseShape(s: Store, e: Env) returns (k: nat)
    requires e.request.CloseTurn? && UniqueShifts(s.shifts)
    requires ApplyClose(s, e).store != s
    ensures k < |s.shifts| && IsOpenOf(s.shifts[k], e.tenant)
    ensures e.tenant in s.tenants && s.tenants[e.tenant].activeShift == Some(s.shifts[k].id)
    ensures var h := s.shifts[k];
            var cash := CashDue(s.ledger, e.tenant, h.openedAt);
            var closed := Closed(h, e.now, cash, e.request.actual, e.request.note);
            && ApplyClose(s, e) == Outcome(
                 s.(shifts := s.shifts[k := closed],
                    ledger := Freeze(s.ledger, e.tenant, h.openedAt, h.id),
                    tenants := s.tenants[e.tenant := Tenant(None)]),
                 ShiftSaved(closed))
  {
    var found := FindOpenById(s.shifts, e.tenant, s.tenants[e.tenant].activeShift.value).value;
    k :| 0 <= k < |s.shifts| && s.shifts[k] == found;
    var h := ApplyClose(s, e).reply.shift;
    assert SaveShift(s.shifts, h) == s.shifts[k := h];
  }

  lemma CloseRefusalServes(s: Store, e: Env)
    requires e.request.CloseTurn?
    ensures e.tenant !in s.tenants ==> ApplyClose(s, e) == Outcome(s, Rejected(NotFound))
    ensures e.tenant in s.tenants && s.tenants[e.tenant].activeShift.None? ==>
              ApplyClose(s, e) == Outcome(s, Rejected(NoOpenTurn))
    ensures e.tenant in s.tenants && s.tenants[e.tenant].activeShift.Some?
            && FindOpenById(s.shifts, e.tenant, s.tenants[e.tenant].activeShift.value).None? ==>
              ApplyClose(s, e) == Outcome(s, Rejected(ShiftMissing))
  {
  }

  lemma CloseServes(s: Store, e: Env, open: Shift, h: Shift)
    requires e.request.CloseTurn? && e.tenant in s.tenants && s.tenants[e.tenant].activeShift.Some?
    requires FindOpenById(s.shifts, e.tenant, s.tenants[e.tenant].activeShift.value) == Some(open)
    requires h == Closed(open, e.now, CashDue(s.ledger, e.tenant, open.openedAt), e.request.actual, e.request.note)
    ensures var q := e.request;
            ApplyClose(s, e) ==
              if !Int4(CashDue(s.ledger, e.tenant, open.openedAt)) then Outcome(s, Rejected(DbError))
              else if h.discrepancy != Some(0) && (q.note.None? || q.note.value == "") then
                Outcome(s, Rejected(NoteRequired))
              else if !(Int4(h.expected.value) && Int4(q.actual) && Int4(h.discrepancy.value)) then
                Outcome(s, Rejected(DbError))
              else
                Outcome(s.(shifts := SaveShift(s.shifts, h), ledger := Freeze(s.ledger, e.tenant, open.openedAt, h.id),
                           tenants := s.tenants[e.tenant := Tenant(None)]), ShiftSaved(h))
  {
  }

  lemma CloseKeepsSealed(l: seq<Row>, shifts: seq<Shift>, k: nat, closed: Shift)
    requires Sealed(l, shifts) && k < |shifts| && shifts[k].status == OPEN
    requires closed.id == shifts[k].id && closed.tenant == shifts[k].tenant && closed.status != OPEN
    requires Accounted(closed, Freeze(l, closed.tenant, closed.openedAt, closed.id))
    ensures Sealed(Freeze(l, closed.tenant, closed.openedAt, closed.id), shifts[k := closed])
  {
    var m, after := Freeze(l, closed.tenant, closed.openedAt, closed.id), shifts[k := closed];
    forall i | 0 <= i < |after| && after[i].status != OPEN ensures Accounted(after[i], m) {
      if i != k {
        assert after[i].id != closed.id;
        FrozenSumsPointwise(l, m, after[i].id);
      }
    }
    forall i | 0 <= i < |m| && m[i].shift.Some?
      ensures exists j :: 0 <= j < |after| && HoldsRow(after[j], m[i])
    {
      if m[i] == l[i] {
        var j :| 0 <= j < |shifts| && HoldsRow(shifts[j], l[i]);
        assert HoldsRow(after[j], m[i]);
      } else {
        assert HoldsRow(after[k], m[i]);
      }
    }
  }

  lemma HeldByClosed(l: seq<Row>, shifts: seq<Shift>, i: nat, k: nat)
    requires Sealed(l, shifts) && i < |l| && k < |shifts| && l[i].shift == Some(shifts[k].id)
    ensures HoldsRow(shifts[k], l[i])
  {
    var j :| 0 <= j < |shifts| && HoldsRow(shifts[j], l[i]);
    assert j == k;
  }

  /** An open shift holds no rows yet. */
  lemma OpenShiftIsEmpty(l: seq<Row>, shifts: seq<Shift>, k: nat)
    requires Sealed(l, shifts) && k < |shifts| && shifts[k].status == OPEN
    ensures forall i | 0 <= i < |l| :: l[i].shift != Some(shifts[k].id)
  {
    forall i | 0 <= i < |l| ensures l[i].shift != Some(shifts[k].id) {
      if l[i].shift == Some(shifts[k].id) {
        HeldByClosed(l, shifts, i, k);
      }
    }
  }

  /** The figures a close records account for exactly the rows it freezes. */
  lemma ClosedIsAccounted(l: seq<Row>, h: Shift, now: int, actual: int, note: Option<string>)
    requires forall i | 0 <= i < |l| :: l[i].shift != Some(h.id)
    ensures Accounted(Closed(h, now, CashDue(l, h.tenant, h.openedAt), actual, note),
                      Freeze(l, h.tenant, h.openedAt, h.id))
  {
    hide Freeze, CashDue, CashIn;
    FreezeCollects(l, h.tenant, h.openedAt, h.id);
  }

  lemma FreezeKeepsRows(l: seq<Row>, tenant: Uuid, openedAt: int, shift: Uuid, customers: map<Uuid, Customer>)
    requires Unique(l) && Tidy(l) && Linked(l) && Owned(l, customers)
    ensures var m := Freeze(l, tenant, openedAt, shift);
            Unique(m) && Tidy(m) && Linked(m) && Owned(m, customers)
  {
    var m := Freeze(l, tenant, openedAt, shift);
    UpdateKeepsLinked(l, m);
    UpdateKeepsUniqueAndTidy(l, m);
  }

  lemma CloseKeepsInv(s: Store, e: Env)
    requires Inv(s) && e.request.CloseTurn?
    ensures Inv(ApplyClose(s, e).store)
  {
    if ApplyClose(s, e).store != s {
      var k := CloseShape(s, e);
      var h := s.shifts[k];
      var closed := Closed(h, e.now, CashDue(s.ledger, e.tenant, h.openedAt), e.request.actual, e.request.note);
      OpenShiftIsEmpty(s.ledger, s.shifts, k);
      ClosedIsAccounted(s.ledger, h, e.now, e.request.actual, e.request.note);
      CloseKeepsSealed(s.ledger, s.shifts, k, closed);
      FreezeKeepsRows(s.ledger, e.tenant, h.openedAt, h.id, s.customers);
      CloseKeepsSemaphore(s, e, k, closed);
    }
  }

  lemma CloseKeepsSemaphore(s: Store, e: Env, k: nat, closed: Shift)
    requires Semaphore(s.tenants, s.shifts) && UniqueShifts(s.shifts)
    requires k < |s.shifts| && IsOpenOf(s.shifts[k], e.tenant)
    requires closed.id == s.shifts[k].id && closed.tenant == e.tenant && closed.status != OPEN
    ensures Semaphore(s.tenants[e.tenant := Tenant(None)], s.shifts[k := closed])
  {
    var tenants, shifts := s.tenants[e.tenant := Tenant(None)], s.shifts[k := closed];
    forall t | t in tenants && tenants[t].activeShift.Some?
      ensures exists i :: 0 <= i < |shifts| && IsOpenOf(shifts[i], t) && tenants[t].activeShift == Some(shifts[i].id)
    {
      var i :| 0 <= i < |s.shifts| && IsOpenOf(s.shifts[i], t) && s.tenants[t].activeShift == Some(s.shifts[i].id);
      assert shifts[i] == s.shifts[i];
    }
    forall i | 0 <= i < |shifts| && shifts[i].status == OPEN
      ensures shifts[i].tenant in tenants && tenants[shifts[i].tenant].activeShift == Some(shifts[i].id)
    {
      assert shifts[i] == s.shifts[i];
      assert i < k ==> s.shifts[i].id != s.shifts[k].id;
      assert k < i ==> s.shifts[k].id != s.shifts[i].id;
    }
  }

  // ─── Every step, every run ─────────────────────────────────────────────

  lemma StepKeepsInv(s: Store, e: Env)
    requires Inv(s) && WellFormed(s, e)
    ensures Inv(Apply(s, e).store)
  {
    hide Inv, WellFormed;
    match e.request
    case Reverse(_, _, _) => ReverseKeepsInv(s, e);
    case Inflate(_, _, _) => InflateKeepsInv(s, e);
    case CreateCustomer(_, _, _, _, _) => CreateKeepsInv(s, e);
    case SetLimit(_, _) => SetLimitKeepsInv(s, e);
    case ToggleBlock(_) => ToggleKeepsInv(s, e);
    case Merge(_, _) => MergeKeepsInv(s, e);
    case OpenTurn(_, _) => OpenKeepsInv(s, e);
    case CloseTurn(_, _) => CloseKeepsInv(s, e);
    case _ => PostingKeepsInv(s, e);
  }

  /** In every reachable state: unique keys, the reversal bijection, tidy groups, owned rows,
      solvent customers, a faithful semaphore and sealed shifts. */
  lemma {:induction false} RunKeepsInv(s: Store, es: seq<Env>)
    requires Inv(s) && WellFormedRun(s, es)
    ensures Inv(Run(s, es))
  {
    if es != [] {
      RunKeepsInv(s, es[..|es| - 1]);
      StepKeepsInv(Run(s, es[..|es| - 1]), es[|es| - 1]);
    }
  }
}
