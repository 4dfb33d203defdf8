/** The services as they run: statements against the tables of an open database transaction,
    published on commit and discarded on rollback. Every method is proved to serve its request
    exactly as one atomic step of the engine, or, when a write fails, not at all. */
module Services {
  import opened Domain
  import opened Rounding
  import opened Ledger
  import opened Till
  import opened Engine
  import opened Invariants
  import opened Books
  import opened Cash

  /** The request was served completely, or an injected failure left everything as it was. */
  ghost predicate Served(s: Store, whole: Outcome, fault: Option<nat>, t: Store, r: Reply) {
    || (t == whole.store && r == whole.reply)
    || (fault.Some? && t == s && r == Rejected(DbError))
  }

  // ─── The branches of a posting ─────────────────────────────────────────

  predicate SumsUp(q: Request) {
    q.RegisterMixed? ==> q.cash + q.transfer == q.total
  }

  lemma MismatchServes(s: Store, e: Env)
    requires IsPosting(e.request) && !SumsUp(e.request)
    ensures ApplyPosting(s, e) == Outcome(s, Rejected(SumMismatch))
  {
  }

  lemma ReplayServes(s: Store, e: Env)
    requires IsPosting(e.request) && SumsUp(e.request) && FindKey(s.ledger, e.tenant, e.request.key).Some?
    ensures ApplyPosting(s, e)
         == Outcome(s, Replay(s.ledger, e.request, FindKey(s.ledger, e.tenant, e.request.key).value))
  {
  }

  lemma RefusalServes(s: Store, e: Env, error: Error)
    requires IsPosting(e.request) && SumsUp(e.request) && FindKey(s.ledger, e.tenant, e.request.key).None?
    requires if Owns(s, e.tenant, e.request.customer) then Decide(e, s.customers[e.request.customer]) == Refuse(error)
             else error == NotFound
    ensures ApplyPosting(s, e) == Outcome(s, Rejected(error))
  {
  }

  lemma WriteServes(s: Store, e: Env, rows: seq<Row>, c: Customer)
    requires IsPosting(e.request) && SumsUp(e.request) && FindKey(s.ledger, e.tenant, e.request.key).None?
    requires Owns(s, e.tenant, e.request.customer) && Decide(e, s.customers[e.request.customer]) == Write(rows, c)
    ensures |rows| >= 1
    ensures ApplyPosting(s, e) ==
              if Accepts(s.ledger, rows, c) then
                Outcome(s.(ledger := s.ledger + rows, customers := s.customers[e.request.customer := c]), Done(rows))
              else Outcome(s, Rejected(DbError))
  {
  }

  lemma NoDebtDecides(e: Env, c: Customer)
    requires (e.request.RegisterPayment? && e.request.amount > 0) || e.request.RegisterMixed? || e.request.Forgive?
    requires c.balance <= 0
    ensures Decide(e, c) == Refuse(NoDebt)
  {
  }

  /** What the statements of a mixed payment compute is what it decides. */
  lemma MixedDecides(e: Env, c: Customer, cash: int, transfer: int)
    requires e.request.RegisterMixed? && c.balance > 0
    requires var q := e.request;
             if q.total <= c.balance then cash == q.cash && transfer == q.transfer
             else cash == JsRound(Share(q.cash, c.balance, q.total) + q.drift) && transfer == c.balance - cash
    ensures var q := e.request;
            var pair := Some(q.groupId);
            Decide(e, c) == Write(
              [NewRow(e, q.cashId, q.key, q.customer, PAYMENT, cash).(paidBy := Some(CASH), group := pair),
               NewRow(e, q.transferId, q.transferKey, q.customer, PAYMENT, transfer)
               .(paidBy := Some(TRANSFER), group := pair)],
              c.(balance := Max(0, c.balance - (cash + transfer))))
  {
    hide JsRound, Share;
  }

  // ─── The branches of the other services ────────────────────────────────

  lemma ReversalReplayServes(s: Store, e: Env)
    requires e.request.Reverse? && FindKey(s.ledger, e.tenant, e.request.key).Some?
    ensures ApplyReverse(s, e) == Outcome(s, Posted(FindKey(s.ledger, e.tenant, e.request.key).value))
  {
  }

  lemma ReversalRefusalServes(s: Store, e: Env)
    requires e.request.Reverse? && FindKey(s.ledger, e.tenant, e.request.key).None?
    ensures var found := FindTx(s.ledger, e.tenant, e.request.target);
            && (found.None? ==> ApplyReverse(s, e) == Outcome(s, Rejected(NotFound)))
            && (found.Some? && found.value.reversed ==> ApplyReverse(s, e) == Outcome(s, Rejected(AlreadyReversed)))
            && (found.Some? && !found.value.reversed && !Owns(s, e.tenant, found.value.customer) ==>
                  ApplyReverse(s, e) == Outcome(s, Rejected(NotFound)))
  {
  }

  lemma ReversalServes(s: Store, e: Env, o: Row, undone: Customer)
    requires e.request.Reverse? && FindKey(s.ledger, e.tenant, e.request.key).None?
    requires FindTx(s.ledger, e.tenant, e.request.target) == Some(o) && !o.reversed && Owns(s, e.tenant, o.customer)
    requires undone == s.customers[o.customer].(balance := Undo(o, s.customers[o.customer].balance))
    ensures ApplyReverse(s, e) ==
              if Accepts(s.ledger, [ReversalRow(e, o)], undone) then
                Outcome(s.(ledger := MarkReversed(s.ledger + [ReversalRow(e, o)], o.id),
                           customers := s.customers[o.customer := undone]), Posted(ReversalRow(e, o)))
              else Outcome(s, Rejected(DbError))
  {
  }

  lemma SelfMergeServes(s: Store, e: Env)
    requires e.request.Merge? && e.request.primary == e.request.secondary
    ensures ApplyMerge(s, e) == Outcome(s, Rejected(SelfMerge))
  {
  }

  lemma MissingMergeServes(s: Store, e: Env, id: Uuid)
    requires e.request.Merge? && e.request.primary != e.request.secondary && !Owns(s, e.tenant, id)
    requires var first, second := Min(e.request.primary, e.request.secondary),
      Max(e.request.primary, e.request.secondary);
             id == first || (id == second && Owns(s, e.tenant, first))
    ensures ApplyMerge(s, e) == Outcome(s, Rejected(MissingRole(e.request, id)))
  {
  }

  lemma MergeServes(s: Store, e: Env)
    requires e.request.Merge? && e.request.primary != e.request.secondary
    requires Owns(s, e.tenant, e.request.primary) && Owns(s, e.tenant, e.request.secondary)
    ensures var q := e.request;
            var (p, r) := Absorb(s.customers[q.primary], s.customers[q.secondary]);
            ApplyMerge(s, e) ==
              if Int4(p.balance) then
                Outcome(s.(ledger := MoveRows(s.ledger, e.tenant, q.secondary, q.primary),
                           customers := s.customers[q.primary := p][q.secondary := r]), CustomerSaved(q.primary, p))
              else Outcome(s, Rejected(DbError))
  {
  }

  lemma SavedMergeFits(customers: map<Uuid, Customer>, p: Uuid, q: Uuid)
    requires Solvent(customers) && p in customers && q in customers
    ensures Int4(Absorb(customers[p], customers[q]).0.limit)
    ensures Int4(Absorb(customers[p], customers[q]).1.balance) && Int4(Absorb(customers[p], customers[q]).1.limit)
  {
  }

  ghost predicate NoKeyTaken(s: Store, e: Env)
    requires e.request.CreateCustomer?
  {
    e.request.newKey.None? || forall c :: !KeyTaken(s, e.tenant, e.request.newKey.value, c)
  }

  /** A client key names at most one customer, so the one found is the one replayed. */
  lemma CreateReplayServes(s: Store, e: Env, c: Uuid)
    requires e.request.CreateCustomer? && e.request.newKey.Some? && Solvent(s.customers)
    requires KeyTaken(s, e.tenant, e.request.newKey.value, c)
    ensures ApplyCreate(s, e) == Outcome(s, CustomerSaved(c, s.customers[c]))
  {
    forall d | KeyTaken(s, e.tenant, e.request.newKey.value, d) ensures d == c {
    }
  }

  lemma CreateRefusalServes(s: Store, e: Env)
    requires e.request.CreateCustomer? && NoKeyTaken(s, e)
    ensures var q := e.request;
            var phoneTaken := q.phone.Some? && q.phone.value != "" && PhoneInUse(s, e.tenant, q.phone.value);
            var dniTaken := q.dni.Some? && q.dni.value != "" && DniInUse(s, e.tenant, q.dni.value);
            && (phoneTaken ==> ApplyCreate(s, e) == Outcome(s, Rejected(PhoneTaken)))
            && (!phoneTaken && dniTaken ==> ApplyCreate(s, e) == Outcome(s, Rejected(DniTaken)))
            && (!phoneTaken && !dniTaken ==>
                  ApplyCreate(s, e) ==
                    if q.id in s.customers || e.tenant !in s.tenants || !Int4(NewCustomer(e).limit) then
                      Outcome(s, Rejected(DbError))
                    else
                      Outcome(s.(customers := s.customers[q.id := NewCustomer(e)]),
                          CustomerSaved(q.id, NewCustomer(e))))
  {
    hide PhoneInUse, DniInUse;
  }

  // ─── The batch loop against its specification ──────────────────────────

  lemma InsertPrefix(l: seq<Row>, rows: seq<Row>, more: seq<Row>)
    requires Insertable(l, rows + more)
    ensures Insertable(l, rows)
  {
    assert forall i | 0 <= i < |rows| :: (rows + more)[i] == rows[i];
  }

  /** `customers.filter(c => c.balance_cents > 0)`. */
  function Debtors(customers: map<Uuid, Customer>, slots: seq<Slot>): seq<Slot> {
    if slots == [] then []
    else
      var front, last := Debtors(customers, slots[..|slots| - 1]), slots[|slots| - 1];
      if last.customer in customers && customers[last.customer].balance > 0 then front + [last] else front
  }

  lemma {:induction false} DebtorsSuffice(e: Env, customers: map<Uuid, Customer>, rate: Rate, slots: seq<Slot>)
    ensures var d := Debtors(customers, slots);
            && InflationRows(e, customers, rate, d) == InflationRows(e, customers, rate, slots)
            && InflationTotal(customers, rate, d) == InflationTotal(customers, rate, slots)
            && |d| == DebtorCount(customers, slots)
  {
    if slots != [] {
      var n := |slots| - 1;
      DebtorsSuffice(e, customers, rate, slots[..n]);
      var d := Debtors(customers, slots);
      if |d| > |Debtors(customers, slots[..n])| {
        assert d[..|d| - 1] == Debtors(customers, slots[..n]);
      }
    }
  }

  lemma {:induction false} DebtorMember(customers: map<Uuid, Customer>, slots: seq<Slot>, x: Slot)
    ensures x in Debtors(customers, slots) <==>
              x in slots && x.customer in customers && customers[x.customer].balance > 0
  {
    if slots != [] {
      var n := |slots| - 1;
      DebtorMember(customers, slots[..n], x);
      assert slots == slots[..n] + [slots[n]];
    }
  }

  lemma {:induction false} DebtorsDistinct(customers: map<Uuid, Customer>, slots: seq<Slot>)
    requires Distinct(slots)
    ensures Distinct(Debtors(customers, slots))
  {
    if slots != [] {
      var n := |slots| - 1;
      var front := Debtors(customers, slots[..n]);
      DebtorsDistinct(customers, slots[..n]);
      forall i | 0 <= i < |front| ensures front[i].customer != slots[n].customer {
        DebtorMember(customers, slots[..n], front[i]);
      }
    }
  }

  lemma DebtorsMembers(customers: map<Uuid, Customer>, slots: seq<Slot>)
    requires Distinct(slots)
    ensures var d := Debtors(customers, slots);
            && (forall x :: x in d <==> x in slots && x.customer in customers && customers[x.customer].balance > 0)
            && Distinct(d)
  {
    hide Debtors, Distinct;
    DebtorsDistinct(customers, slots);
    forall x ensures x in Debtors(customers, slots) <==>
        x in slots && x.customer in customers && customers[x.customer].balance > 0
    {
      DebtorMember(customers, slots, x);
    }
  }

  /** The customers once the listed slots have been surcharged. */
  ghost function InflatedUpTo(customers: map<Uuid, Customer>, rate: Rate, done: seq<Slot>): map<Uuid, Customer> {
    map c | c in customers ::
      if Visits(done, c) then Inflated(customers[c], rate) else customers[c]
  }

  ghost predicate BatchSoFar(s: Store, e: Env, done: seq<Slot>, ledger: seq<Row>, customers: map<Uuid, Customer>,
      total: int)
    requires e.request.Inflate?
  {
    var p := e.request.rate;
    var rows := InflationRows(e, s.customers, p, done);
    && ledger == s.ledger + rows && Insertable(s.ledger, rows)
    && customers == InflatedUpTo(s.customers, p, done)
    && total == InflationTotal(s.customers, p, done)
    && InflationFits(customers)
  }

  ghost predicate BatchFails(s: Store, e: Env, debtors: seq<Slot>)
    requires e.request.Inflate?
  {
    || !Insertable(s.ledger, InflationRows(e, s.customers, e.request.rate, debtors))
    || !InflationFits(InflatedCustomers(s.customers, e.tenant, e.request.rate))
  }

  /** One more slot: at most one row more, and that customer surcharged. */
  lemma BatchStep(s: Store, e: Env, debtors: seq<Slot>, i: nat)
    requires e.request.Inflate? && i < |debtors| && debtors[i].customer in s.customers
    ensures var p, slot := e.request.rate, debtors[i];
            var amount := Surcharge(s.customers[slot.customer].balance, p);
            var before := InflationRows(e, s.customers, p, debtors[..i]);
            && InflationRows(e, s.customers, p, debtors[..i + 1])
               == (if amount <= 0 then before
                   else before + [NewRow(e, slot.rowId, slot.rowKey, slot.customer, INFLATION_ADJUSTMENT, amount)])
            && InflationTotal(s.customers, p, debtors[..i + 1]) == InflationTotal(s.customers, p, debtors[..i]) + amount
            && InflatedUpTo(s.customers, p, debtors[..i + 1])
               == InflatedUpTo(s.customers, p, debtors[..i])[slot.customer := Inflated(s.customers[slot.customer], p)]
  {
    var p, slot := e.request.rate, debtors[i];
    assert debtors[..i + 1][..i] == debtors[..i];
    var more, less := debtors[..i + 1], debtors[..i];
    forall c | c in s.customers
      ensures Visits(more, c) <==> c == slot.customer || Visits(less, c)
    {
      if Visits(less, c) {
        var k :| 0 <= k < |less| && less[k].customer == c;
        assert more[k].customer == c;
      }
      assert more[i] == slot;
    }
  }

  lemma {:induction false} RowsArePrefix(e: Env, customers: map<Uuid, Customer>, rate: Rate, slots: seq<Slot>, n: nat)
    requires n <= |slots|
    ensures InflationRows(e, customers, rate, slots[..n]) <= InflationRows(e, customers, rate, slots)
  {
    if n < |slots| {
      RowsArePrefix(e, customers, rate, slots[..|slots| - 1], n);
      assert slots[..|slots| - 1][..n] == slots[..n];
    } else {
      assert slots[..n] == slots;
    }
  }

  lemma BatchSkips(s: Store, e: Env, debtors: seq<Slot>, i: nat, ledger: seq<Row>, customers: map<Uuid, Customer>,
      total: int)
    requires e.request.Inflate? && i < |debtors| && debtors[i].customer in s.customers
    requires BatchSoFar(s, e, debtors[..i], ledger, customers, total)
    requires Surcharge(s.customers[debtors[i].customer].balance, e.request.rate) == 0
    ensures BatchSoFar(s, e, debtors[..i + 1], ledger, customers, total)
  {
    BatchStep(s, e, debtors, i);
    var c := debtors[i].customer;
    assert Inflated(s.customers[c], e.request.rate) == s.customers[c];
    assert customers[c := s.customers[c]] == customers;
  }

  /** The slot's row, as the loop builds it. */
  function SlotRow(e: Env, slot: Slot, amount: int): Row {
    NewRow(e, slot.rowId, slot.rowKey, slot.customer, INFLATION_ADJUSTMENT, amount)
  }

  lemma BatchAdvances(s: Store, e: Env, debtors: seq<Slot>, i: nat, ledger: seq<Row>, customers: map<Uuid, Customer>,
      total: int)
    requires e.request.Inflate? && i < |debtors| && debtors[i].customer in s.customers
    requires BatchSoFar(s, e, debtors[..i], ledger, customers, total)
    requires var slot := debtors[i];
             var amount := Surcharge(s.customers[slot.customer].balance, e.request.rate);
             && amount > 0 && Insertable(ledger, [SlotRow(e, slot, amount)])
             && Int4(s.customers[slot.customer].balance + amount)
    ensures var slot := debtors[i];
            var amount := Surcharge(s.customers[slot.customer].balance, e.request.rate);
            BatchSoFar(s, e, debtors[..i + 1], ledger + [SlotRow(e, slot, amount)],
                       customers[slot.customer := Inflated(s.customers[slot.customer], e.request.rate)], total + amount)
  {
    var slot := debtors[i];
    var amount := Surcharge(s.customers[slot.customer].balance, e.request.rate);
    var rows := InflationRows(e, s.customers, e.request.rate, debtors[..i]);
    BatchStep(s, e, debtors, i);
    InsertOneMore(s.ledger, rows, SlotRow(e, slot, amount));
    assert s.ledger + (rows + [SlotRow(e, slot, amount)]) == ledger + [SlotRow(e, slot, amount)];
  }

  /** If the row or the balance of a slot is refused, the specification refuses the batch. */
  lemma BatchBreaks(s: Store, e: Env, debtors: seq<Slot>, i: nat, ledger: seq<Row>, customers: map<Uuid, Customer>,
      total: int)
    requires e.request.Inflate? && i < |debtors| && Owns(s, e.tenant, debtors[i].customer)
    requires BatchSoFar(s, e, debtors[..i], ledger, customers, total)
    requires var slot := debtors[i];
             var amount := Surcharge(s.customers[slot.customer].balance, e.request.rate);
             && amount > 0
             && (!Insertable(ledger, [SlotRow(e, slot, amount)]) || !Int4(s.customers[slot.customer].balance + amount))
    ensures BatchFails(s, e, debtors)
  {
    var p, slot := e.request.rate, debtors[i];
    var amount := Surcharge(s.customers[slot.customer].balance, p);
    if Int4(s.customers[slot.customer].balance + amount) {
      var rows := InflationRows(e, s.customers, p, debtors[..i]);
      BatchStep(s, e, debtors, i);
      InsertOneMore(s.ledger, rows, SlotRow(e, slot, amount));
      var part, all := rows + [SlotRow(e, slot, amount)], InflationRows(e, s.customers, p, debtors);
      RowsArePrefix(e, s.customers, p, debtors, i + 1);
      assert all == part + all[|part|..];
      if Insertable(s.ledger, all) {
        InsertPrefix(s.ledger, part, all[|part|..]);
      }
    } else {
      assert InflatedCustomers(s.customers, e.tenant, p)[slot.customer].balance
          == s.customers[slot.customer].balance + amount;
    }
  }

  lemma BatchBegins(s: Store, e: Env)
    requires e.request.Inflate? && Solvent(s.customers)
    ensures BatchSoFar(s, e, [], s.ledger, s.customers, 0)
  {
  }

  /** One round of the loop, whether its two writes succeeded or not. */
  lemma BatchRound(s: Store, e: Env, debtors: seq<Slot>, i: nat, before: (seq<Row>, map<Uuid, Customer>, int),
      after: (seq<Row>, map<Uuid, Customer>, int), ok: bool)
    requires e.request.Inflate? && i < |debtors| && Owns(s, e.tenant, debtors[i].customer)
    requires BatchSoFar(s, e, debtors[..i], before.0, before.1, before.2)
    requires var slot := debtors[i];
             var amount := Surcharge(s.customers[slot.customer].balance, e.request.rate);
             var row, saved := SlotRow(e, slot, amount), Inflated(s.customers[slot.customer], e.request.rate);
             && amount > 0
             && (ok <==> Insertable(before.0, [row]) && Int4(saved.balance))
             && (ok ==> after == (before.0 + [row], before.1[slot.customer := saved], before.2 + amount))
    ensures if ok then BatchSoFar(s, e, debtors[..i + 1], after.0, after.1, after.2) else BatchFails(s, e, debtors)
  {
    hide BatchSoFar, BatchFails, Insertable, SlotRow, Surcharge;
    if ok {
      BatchAdvances(s, e, debtors, i, before.0, before.1, before.2);
    } else {
      BatchBreaks(s, e, debtors, i, before.0, before.1, before.2);
    }
  }

  lemma LimitFits(customers: map<Uuid, Customer>, c: Uuid)
    requires Solvent(customers) && c in customers
    ensures Int4(customers[c].limit)
  {
  }

  lemma SurchargeOfDebtor(balance: int, rate: Rate)
    requires balance > 0
    ensures Surcharge(balance, rate) == Max(0, JsRound(Computed(balance, rate)))
  {
  }

  /** A slot's customer is still as the SELECT returned it. */
  lemma NotVisitedYet(s: Store, e: Env, debtors: seq<Slot>, i: nat, ledger: seq<Row>, customers: map<Uuid, Customer>,
      total: int)
    requires e.request.Inflate? && Distinct(debtors) && i < |debtors| && debtors[i].customer in s.customers
    requires BatchSoFar(s, e, debtors[..i], ledger, customers, total)
    ensures debtors[i].customer in customers && customers[debtors[i].customer] == s.customers[debtors[i].customer]
  {
    assert !Visits(debtors[..i], debtors[i].customer);
  }

  lemma DebtorsAreOwned(s: Store, e: Env)
    requires e.request.Inflate? && WellFormed(s, e)
    ensures var d := Debtors(s.customers, e.request.slots);
            && (forall i | 0 <= i < |d| :: Owns(s, e.tenant, d[i].customer) && s.customers[d[i].customer].balance > 0)
            && Distinct(d)
  {
    DebtorsMembers(s.customers, e.request.slots);
    var d := Debtors(s.customers, e.request.slots);
    forall i | 0 <= i < |d| ensures Owns(s, e.tenant, d[i].customer) && s.customers[d[i].customer].balance > 0 {
      assert d[i] in d;
    }
  }

  /** Once all debtors are visited, every customer is as the specification wants it. */
  lemma BatchCompletes(s: Store, e: Env, debtors: seq<Slot>)
    requires e.request.Inflate? && WellFormed(s, e)
    requires debtors == Debtors(s.customers, e.request.slots)
    ensures InflatedUpTo(s.customers, e.request.rate, debtors)
         == InflatedCustomers(s.customers, e.tenant, e.request.rate)
  {
    forall c | c in s.customers && s.customers[c].balance > 0
      ensures Visits(debtors, c) <==> s.customers[c].tenant == e.tenant
    {
      DebtorVisited(s, e, c);
    }
  }

  lemma DebtorVisited(s: Store, e: Env, c: Uuid)
    requires e.request.Inflate? && WellFormed(s, e) && c in s.customers && s.customers[c].balance > 0
    ensures Visits(Debtors(s.customers, e.request.slots), c) <==> s.customers[c].tenant == e.tenant
  {
    var slots := e.request.slots;
    var debtors := Debtors(s.customers, slots);
    DebtorsMembers(s.customers, slots);
    if Owns(s, e.tenant, c) {
      assert Visits(slots, c);
      var k :| 0 <= k < |slots| && slots[k].customer == c;
      assert slots[k] in debtors;
      var j :| 0 <= j < |debtors| && debtors[j] == slots[k];
    }
    if Visits(debtors, c) {
      var k :| 0 <= k < |debtors| && debtors[k].customer == c;
      assert debtors[k] in debtors;
      var j :| 0 <= j < |slots| && slots[j] == debtors[k];
    }
  }

  /** The loop's result, or its failure, is the specification's. */
  lemma BatchMeetsSpec(s: Store, e: Env, ledger: seq<Row>, customers: map<Uuid, Customer>, total: int)
    requires e.request.Inflate? && WellFormed(s, e) && (e.tenant, e.request.key) !in s.batches
    ensures var d := Debtors(s.customers, e.request.slots);
            && (BatchSoFar(s, e, d, ledger, customers, total) ==>
                  ApplyInflate(s, e) == Outcome(
                    Store(s.tenants, customers, ledger,
                          s.batches[(e.tenant, e.request.key) := Batch(|d|, total)], s.shifts),
                    BatchApplied(|d|, total)))
            && (BatchFails(s, e, d) ==> ApplyInflate(s, e) == Outcome(s, Rejected(DbError)))
  {
    DebtorsSuffice(e, s.customers, e.request.rate, e.request.slots);
    BatchCompletes(s, e, Debtors(s.customers, e.request.slots));
  }

  /** A close by the tenant that would succeed now. */
  ghost predicate Foretold(s: Store, tenant: Uuid, e: Env) {
    e.request.CloseTurn? && e.tenant == tenant && ApplyClose(s, e).reply.ShiftSaved?
  }

  class Database {
    /** The committed tables. */
    var committed: Store

    // The tables as the open transaction sees them.
    var tenants: map<Uuid, Tenant>
    var customers: map<Uuid, Customer>
    var ledger: seq<Row>
    var batches: map<(Uuid, Uuid), Batch>
    var shifts: seq<Shift>

    /** How many more writes succeed before the injected failure; None injects none. */
    var writesLeft: Option<nat>

    ghost predicate Valid()
      reads this
    {
      Inv(committed)
    }

    constructor (s: Store)
      requires Inv(s)
      ensures Valid() && committed == s
    {
      committed := s;
      tenants, customers, ledger, batches, shifts := s.tenants, s.customers, s.ledger, s.batches, s.shifts;
      writesLeft := None;
    }

    function Work(): Store
      reads this
    {
      Store(tenants, customers, ledger, batches, shifts)
    }

    // ─── Transactions and writes ─────────────────────────────────────────

    method StartTransaction(fault: Option<nat>)
      modifies this
      ensures committed == old(committed) && Work() == committed && writesLeft == fault
    {
      tenants, customers, ledger := committed.tenants, committed.customers, committed.ledger;
      batches, shifts := committed.batches, committed.shifts;
      writesLeft := fault;
    }

    method Commit()
      modifies this
      ensures committed == old(Work()) && Work() == committed
    {
      committed := Work();
    }

    method Rollback()
      modifies this
      ensures committed == old(committed) && Work() == committed
    {
      StartTransaction(None);
    }

    /** Reaches the database with one write, unless the connection fails first. */
    method Reach() returns (ok: bool)
      modifies this`writesLeft
      ensures old(writesLeft).None? ==> ok && writesLeft.None?
    {
      ok := writesLeft != Some(0);
      if ok && writesLeft.Some? {
        writesLeft := Some(writesLeft.value - 1);
      }
    }

    method SaveRow(row: Row) returns (ok: bool)
      modifies this`ledger, this`writesLeft
      ensures ledger == if ok then old(ledger) + [row] else old(ledger)
      ensures ok ==> Insertable(old(ledger), [row])
      ensures old(writesLeft).None? ==> writesLeft.None? && (ok <==> Insertable(old(ledger), [row]))
    {
      ok := Reach();
      if ok {
        ok := Int4(row.amount) && forall i | 0 <= i < |ledger| :: !Clash(ledger[i], row);
        assert [row][0] == row;
      }
      if ok {
        ledger := ledger + [row];
      }
    }

    method SaveCustomer(id: Uuid, c: Customer) returns (ok: bool)
      modifies this`customers, this`writesLeft
      ensures customers == if ok then old(customers)[id := c] else old(customers)
      ensures ok ==> Int4(c.balance) && Int4(c.limit)
      ensures old(writesLeft).None? ==> writesLeft.None? && (ok <==> Int4(c.balance) && Int4(c.limit))
    {
      ok := Reach();
      if ok {
        ok := Int4(c.balance) && Int4(c.limit);
      }
      if ok {
        customers := customers[id := c];
      }
    }

    // ─── Postings ────────────────────────────────────────────────────────

    method RegisterDebt(e: Env, fault: Option<nat>) returns (r: Reply)
      requires e.request.RegisterDebt?
      requires Solvent(committed.customers)
      modifies this
      ensures Served(old(committed), ApplyPosting(old(committed), e), fault, committed, r)
    {
      var q := e.request;
      StartTransaction(fault);
      var existing := FindKey(ledger, e.tenant, q.key);
      if existing.Some? {
        Commit();
        return Posted(existing.value);
      }
      if !Owns(Work(), e.tenant, q.customer) {
        Rollback();
        return Rejected(NotFound);
      }
      var customer := customers[q.customer];
      if !customer.active {
        Rollback();
        return Rejected(Blocked);
      }
      var newBalance := customer.balance + q.amount;
      if newBalance > customer.limit {
        Rollback();
        return Rejected(OverLimit);
      }
      var row := NewRow(e, q.rowId, q.key, q.customer, DEBT, q.amount);
      var ok := SaveRow(row);
      if ok {
        customer := customer.(balance := newBalance);
        ok := SaveCustomer(q.customer, customer);
      }
      if !ok {
        Rollback();
        return Rejected(DbError);
      }
      Commit();
      return Posted(row);
    }

    method RegisterPayment(e: Env, fault: Option<nat>) returns (r: Reply)
      requires e.request.RegisterPayment?
      requires Solvent(committed.customers)
      modifies this
      ensures Served(old(committed), ApplyPosting(old(committed), e), fault, committed, r)
    {
      var q := e.request;
      StartTransaction(fault);
      var existing := FindKey(ledger, e.tenant, q.key);
      if existing.Some? {
        Commit();
        return Posted(existing.value);
      }
      if !Owns(Work(), e.tenant, q.customer) {
        Rollback();
        return Rejected(NotFound);
      }
      var customer := customers[q.customer];
      var effectiveAmount := Min(q.amount, customer.balance);
      if effectiveAmount <= 0 {
        Rollback();
        return Rejected(NoDebt);
      }
      var paymentMethod := if q.paidBy.Some? then q.paidBy else Some(CASH);
      var row := NewRow(e, q.rowId, q.key, q.customer, PAYMENT, effectiveAmount).(paidBy := paymentMethod);
      var ok := SaveRow(row);
      if ok {
        customer := customer.(balance := customer.balance - effectiveAmount);
        ok := SaveCustomer(q.customer, customer);
      }
      if !ok {
        Rollback();
        return Rejected(DbError);
      }
      Commit();
      return Posted(row);
    }

    method RegisterMixedPayment(e: Env, fault: Option<nat>) returns (r: Reply)
      requires e.request.RegisterMixed?
      requires Solvent(committed.customers)
      modifies this
      ensures Served(old(committed), ApplyPosting(old(committed), e), fault, committed, r)
    {
      hide ApplyPosting, Decide, Insertable, FindKey, FindInGroup, JsRound, Share, NewRow;
      var q := e.request;
      ghost var s := committed;
      if q.cash + q.transfer != q.total {
        MismatchServes(s, e);
        return Rejected(SumMismatch);
      }
      StartTransaction(fault);
      var existing := FindKey(ledger, e.tenant, q.key);
      if existing.Some? {
        Commit();
        ReplayServes(s, e);
        var cashTx, transferTx := existing.value, existing.value;
        if existing.value.group.Some? {
          var inCash := FindInGroup(ledger, existing.value.group.value, CASH);
          var inTransfer := FindInGroup(ledger, existing.value.group.value, TRANSFER);
          cashTx := if inCash.Some? then inCash.value else existing.value;
          transferTx := if inTransfer.Some? then inTransfer.value else existing.value;
        }
        return PostedPair(cashTx, transferTx);
      }
      if !Owns(Work(), e.tenant, q.customer) {
        Rollback();
        RefusalServes(s, e, NotFound);
        return Rejected(NotFound);
      }
      var customer := customers[q.customer];
      if customer.balance <= 0 {
        Rollback();
        NoDebtDecides(e, customer);
        RefusalServes(s, e, NoDebt);
        return Rejected(NoDebt);
      }
      var cashEffective, transferEffective := q.cash, q.transfer;
      var totalEffective := Min(q.total, customer.balance);
      if totalEffective < q.total {
        cashEffective := JsRound(Rounding.Share(q.cash, totalEffective, q.total) + q.drift);
        transferEffective := totalEffective - cashEffective;
      }
      var cashTx := NewRow(e, q.cashId, q.key, q.customer, PAYMENT, cashEffective)
      .(paidBy := Some(CASH), group := Some(q.groupId));
      var transferTx := NewRow(e, q.transferId, q.transferKey, q.customer, PAYMENT, transferEffective)
      .(paidBy := Some(TRANSFER), group := Some(q.groupId));
      MixedDecides(e, customer, cashEffective, transferEffective);
      ghost var after := customer.(balance := Max(0, customer.balance - (cashEffective + transferEffective)));
      WriteServes(s, e, [cashTx, transferTx], after);
      var ok := SaveRow(cashTx);
      if ok {
        ok := SaveRow(transferTx);
      }
      InsertOneMore(s.ledger, [cashTx], transferTx);
      if ok {
        customer := customer.(balance := customer.balance - (cashEffective + transferEffective));
        if customer.balance < 0 {
          customer := customer.(balance := 0);
        }
        ok := SaveCustomer(q.customer, customer);
      }
      assert [cashTx] + [transferTx] == [cashTx, transferTx];
      if !ok {
        Rollback();
        return Rejected(DbError);
      }
      assert ledger == s.ledger + [cashTx, transferTx];
      Commit();
      return PostedPair(cashTx, transferTx);
    }

    method ForgiveDebt(e: Env, fault: Option<nat>) returns (r: Reply)
      requires e.request.Forgive?
      requires Solvent(committed.customers)
      modifies this
      ensures Served(old(committed), ApplyPosting(old(committed), e), fault, committed, r)
    {
      var q := e.request;
      StartTransaction(fault);
      var existing := FindKey(ledger, e.tenant, q.key);
      if existing.Some? {
        Commit();
        return Posted(existing.value);
      }
      if !Owns(Work(), e.tenant, q.customer) {
        Rollback();
        return Rejected(NotFound);
      }
      var customer := customers[q.customer];
      if customer.balance <= 0 {
        Rollback();
        return Rejected(NoDebt);
      }
      var forgivenAmount := customer.balance;
      var row := NewRow(e, q.rowId, q.key, q.customer, FORGIVENESS, forgivenAmount);
      var ok := SaveRow(row);
      if ok {
        customer := customer.(balance := 0);
        ok := SaveCustomer(q.customer, customer);
      }
      if !ok {
        Rollback();
        return Rejected(DbError);
      }
      Commit();
      return Posted(row);
    }

    // ─── Reversal ────────────────────────────────────────────────────────

    method ReverseTransaction(e: Env, fault: Option<nat>) returns (r: Reply)
      requires e.request.Reverse?
      requires Solvent(committed.customers)
      modifies this
      ensures Served(old(committed), ApplyReverse(old(committed), e), fault, committed, r)
    {
      hide ApplyReverse, Insertable, FindKey, FindTx, MarkReversed;
      var q := e.request;
      ghost var s := committed;
      StartTransaction(fault);
      var existing := FindKey(ledger, e.tenant, q.key);
      if existing.Some? {
        Commit();
        ReversalReplayServes(s, e);
        return Posted(existing.value);
      }
      ReversalRefusalServes(s, e);
      var original := FindTx(ledger, e.tenant, q.target);
      if original.None? {
        Rollback();
        return Rejected(NotFound);
      }
      if original.value.reversed {
        Rollback();
        return Rejected(AlreadyReversed);
      }
      if !Owns(Work(), e.tenant, original.value.customer) {
        Rollback();
        return Rejected(NotFound);
      }
      var customer := customers[original.value.customer];
      assert Int4(customer.limit);
      hide Solvent;
      ghost var undone := customer.(balance := Undo(original.value, customer.balance));
      ReversalServes(s, e, original.value, undone);
      var reversal := NewRow(e, q.rowId, q.key, original.value.customer, REVERSAL, original.value.amount)
      .(reverses := Some(original.value.id));
      assert reversal == ReversalRow(e, original.value);
      hide ReversalRow, NewRow;
      var ok := SaveRow(reversal);
      if ok {
        var amount := original.value.amount;
        var decrease := original.value.kind == DEBT || original.value.kind == INFLATION_ADJUSTMENT;
        customer := customer.(balance := if decrease then customer.balance - amount else customer.balance + amount);
        if customer.balance < 0 {
          customer := customer.(balance := 0);
        }
        assert customer == undone;
        hide Undo;
        ok := SaveCustomer(original.value.customer, customer);
      }
      if ok {
        ok := Reach();
      }
      if !ok {
        Rollback();
        return Rejected(DbError);
      }
      ledger := MarkReversed(ledger, original.value.id);
      Commit();
      return Posted(reversal);
    }

    // ─── Inflation batch ─────────────────────────────────────────────────

    /** The batch's loop over the debtors the SELECT returned. */
    method SurchargeDebtors(e: Env, debtors: seq<Slot>, fault: Option<nat>, ghost s: Store)
      returns (ok: bool, totalAdjustment: int)
      requires e.request.Inflate? && Work() == s && (fault.None? ==> writesLeft.None?)
      requires Distinct(debtors)
      requires forall i | 0 <= i < |debtors| ::
        Owns(s, e.tenant, debtors[i].customer) && s.customers[debtors[i].customer].balance > 0
      requires Solvent(s.customers)
      modifies this`ledger, this`customers, this`writesLeft
      ensures fault.None? ==> writesLeft.None?
      ensures ok ==> BatchSoFar(s, e, debtors, ledger, customers, totalAdjustment)
      ensures !ok ==> fault.Some? || BatchFails(s, e, debtors)
    {
      hide BatchSoFar, BatchFails, Insertable, Distinct, Solvent, SlotRow, Surcharge, JsRound, Computed;
      totalAdjustment := 0;
      ok := true;
      var i := 0;
      BatchBegins(s, e);
      assert debtors[..0] == [];
      while i < |debtors| && ok
        invariant 0 <= i <= |debtors|
        invariant fault.None? ==> writesLeft.None?
        invariant ok ==> BatchSoFar(s, e, debtors[..i], ledger, customers, totalAdjustment)
        invariant !ok ==> fault.Some? || BatchFails(s, e, debtors)
      {
        var slot := debtors[i];
        NotVisitedYet(s, e, debtors, i, ledger, customers, totalAdjustment);
        LimitFits(s.customers, slot.customer);
        var customer := customers[slot.customer];
        var adjustmentCents := JsRound(Computed(customer.balance, e.request.rate));
        SurchargeOfDebtor(customer.balance, e.request.rate);
        ghost var before := (ledger, customers, totalAdjustment);
        if adjustmentCents > 0 {
          ok := SaveRow(SlotRow(e, slot, adjustmentCents));
          if ok {
            customer := customer.(balance := customer.balance + adjustmentCents);
            ok := SaveCustomer(slot.customer, customer);
            totalAdjustment := totalAdjustment + adjustmentCents;
          }
          if ok || fault.None? {
            BatchRound(s, e, debtors, i, before, (ledger, customers, totalAdjustment), ok);
          }
        } else {
          BatchSkips(s, e, debtors, i, ledger, customers, totalAdjustment);
        }
        i := i + 1;
      }
      assert i == |debtors| ==> debtors[..i] == debtors;
    }

    method ApplyInflationAdjustment(e: Env, fault: Option<nat>) returns (r: Reply)
      requires e.request.Inflate?
      requires Solvent(committed.customers) && WellFormed(committed, e)
      modifies this
      ensures Served(old(committed), ApplyInflate(old(committed), e), fault, committed, r)
    {
      var q := e.request;
      StartTransaction(fault);
      if (e.tenant, q.key) in batches {
        var b := batches[(e.tenant, q.key)];
        Commit();
        return BatchApplied(b.affected, b.total);
      }
      ghost var s := committed;
      var debtors := Debtors(customers, q.slots);
      DebtorsAreOwned(s, e);
      var ok, totalAdjustment := SurchargeDebtors(e, debtors, fault, s);
      BatchMeetsSpec(s, e, ledger, customers, totalAdjustment);
      if ok {
        ok := Reach();
      }
      if !ok {
        Rollback();
        return Rejected(DbError);
      }
      batches := batches[(e.tenant, q.key) := Batch(|debtors|, totalAdjustment)];
      Commit();
      return BatchApplied(|debtors|, totalAdjustment);
    }

    // ─── Customers ───────────────────────────────────────────────────────

    method CreateCustomer(e: Env, fault: Option<nat>) returns (r: Reply)
      requires e.request.CreateCustomer?
      requires Solvent(committed.customers)
      modifies this
      ensures Served(old(committed), ApplyCreate(old(committed), e), fault, committed, r)
    {
      hide ApplyCreate, Solvent;
      var q := e.request;
      ghost var s := committed;
      StartTransaction(fault);
      if q.newKey.Some? {
        var holders := set c | c in customers && customers[c].tenant == e.tenant && customers[c].key == q.newKey;
        assert forall c :: c in holders <==> KeyTaken(s, e.tenant, q.newKey.value, c);
        if holders != {} {
          var c :| c in holders;
          CreateReplayServes(s, e, c);
          return CustomerSaved(c, customers[c]);
        }
      }
      CreateRefusalServes(s, e);
      var own := set c | c in customers && customers[c].tenant == e.tenant;
      assert forall c :: c in own <==> Owns(committed, e.tenant, c);
      if q.phone.Some? && q.phone.value != "" {
        var taken := exists c | c in own :: customers[c].phone == q.phone;
        assert taken <==> PhoneInUse(committed, e.tenant, q.phone.value);
        if taken {
          return Rejected(PhoneTaken);
        }
      }
      if q.dni.Some? && q.dni.value != "" {
        var taken := exists c | c in own :: customers[c].dni == q.dni;
        assert taken <==> DniInUse(committed, e.tenant, q.dni.value);
        if taken {
          return Rejected(DniTaken);
        }
      }
      var limit := if q.newLimit.Some? then q.newLimit.value else 0;
      var customer := Customer(e.tenant, 0, limit, true, q.phone, q.dni, q.newKey);
      var ok := q.id !in customers && e.tenant in tenants;
      if ok {
        ok := SaveCustomer(q.id, customer);
      }
      if !ok {
        Rollback();
        return Rejected(DbError);
      }
      Commit();
      return CustomerSaved(q.id, customer);
    }

    method UpdateCreditLimit(e: Env, fault: Option<nat>) returns (r: Reply)
      requires e.request.SetLimit?
      requires Solvent(committed.customers)
      modifies this
      ensures Served(old(committed), ApplySetLimit(old(committed), e), fault, committed, r)
    {
      var q := e.request;
      StartTransaction(fault);
      if !Owns(Work(), e.tenant, q.customer) {
        Rollback();
        return Rejected(NotFound);
      }
      var customer := customers[q.customer];
      customer := customer.(limit := q.limit);
      var ok := SaveCustomer(q.customer, customer);
      if !ok {
        Rollback();
        return Rejected(DbError);
      }
      Commit();
      return CustomerSaved(q.customer, customer);
    }

    method ToggleBlock(e: Env, fault: Option<nat>) returns (r: Reply)
      requires e.request.ToggleBlock?
      requires Solvent(committed.customers)
      modifies this
      ensures Served(old(committed), ApplyToggle(old(committed), e), fault, committed, r)
    {
      var q := e.request;
      StartTransaction(fault);
      if !Owns(Work(), e.tenant, q.customer) {
        return Rejected(NotFound);
      }
      var customer := customers[q.customer];
      customer := customer.(active := !customer.active);
      var ok := SaveCustomer(q.customer, customer);
      if !ok {
        Rollback();
        return Rejected(DbError);
      }
      Commit();
      return CustomerSaved(q.customer, customer);
    }

    method MergeCustomers(e: Env, fault: Option<nat>) returns (r: Reply)
      requires e.request.Merge?
      requires Solvent(committed.customers)
      modifies this
      ensures Served(old(committed), ApplyMerge(old(committed), e), fault, committed, r)
    {
      hide ApplyMerge, MoveRows, Solvent;
      var q := e.request;
      ghost var s := committed;
      if q.primary == q.secondary {
        SelfMergeServes(s, e);
        return Rejected(SelfMerge);
      }
      StartTransaction(fault);
      var firstId, secondId := q.secondary, q.primary;
      if q.primary < q.secondary {
        firstId, secondId := q.primary, q.secondary;
      }
      if !Owns(Work(), e.tenant, firstId) {
        Rollback();
        MissingMergeServes(s, e, firstId);
        return Rejected(if firstId == q.primary then PrimaryMissing else SecondaryMissing);
      }
      if !Owns(Work(), e.tenant, secondId) {
        Rollback();
        MissingMergeServes(s, e, secondId);
        return Rejected(if secondId == q.primary then PrimaryMissing else SecondaryMissing);
      }
      var primary, secondary := customers[q.primary], customers[q.secondary];
      MergeServes(s, e);
      SavedMergeFits(customers, q.primary, q.secondary);
      var ok := Reach();
      if ok {
        ledger := MoveRows(ledger, e.tenant, q.secondary, q.primary);
        primary := primary.(balance := primary.balance + secondary.balance);
        primary := primary.(limit := if primary.limit >= secondary.limit then primary.limit else secondary.limit);
        ok := SaveCustomer(q.primary, primary);
      }
      if ok {
        secondary := secondary.(active := false);
        secondary := secondary.(balance := 0);
        ok := SaveCustomer(q.secondary, secondary);
      }
      if !ok {
        Rollback();
        return Rejected(DbError);
      }
      Commit();
      return CustomerSaved(q.primary, primary);
    }

    // ─── Cash register ───────────────────────────────────────────────────

    method OpenTurn(e: Env, fault: Option<nat>) returns (r: Reply)
      requires e.request.OpenTurn?
      requires Solvent(committed.customers)
      modifies this
      ensures Served(old(committed), ApplyOpen(old(committed), e), fault, committed, r)
    {
      var q := e.request;
      StartTransaction(fault);
      if e.tenant !in tenants {
        Rollback();
        return Rejected(NotFound);
      }
      var tenant := tenants[e.tenant];
      if tenant.activeShift.Some? {
        Rollback();
        return Rejected(TurnAlreadyOpen);
      }
      var opening := if q.opening.Some? then q.opening.value else 0;
      var shift := Shift(q.shiftId, e.tenant, e.now, None, opening, None, None, None, None, OPEN);
      var ok := Reach();
      if ok {
        ok := Int4(opening) && forall i | 0 <= i < |shifts| :: shifts[i].id != shift.id;
      }
      if ok {
        shifts := shifts + [shift];
        ok := Reach();
      }
      if !ok {
        Rollback();
        return Rejected(DbError);
      }
      tenant := tenant.(activeShift := Some(shift.id));
      tenants := tenants[e.tenant := tenant];
      Commit();
      return ShiftSaved(shift);
    }

    method CloseTurn(e: Env, fault: Option<nat>) returns (r: Reply)
      requires e.request.CloseTurn?
      requires Solvent(committed.customers)
      modifies this
      ensures Served(old(committed), ApplyClose(old(committed), e), fault, committed, r)
    {
      hide ApplyClose, CashDue, FindOpenById, SaveShift, Freeze;
      var q := e.request;
      ghost var s := committed;
      StartTransaction(fault);
      CloseRefusalServes(s, e);
      if e.tenant !in tenants {
        Rollback();
        return Rejected(NotFound);
      }
      var tenant := tenants[e.tenant];
      if tenant.activeShift.None? {
        Rollback();
        return Rejected(NoOpenTurn);
      }
      var found := FindOpenById(shifts, e.tenant, tenant.activeShift.value);
      if found.None? {
        Rollback();
        return Rejected(ShiftMissing);
      }
      var shift := found.value;
      var openedAt := shift.openedAt;
      var cashCollected := CashDue(ledger, e.tenant, openedAt);
      CloseServes(s, e, shift, Closed(shift, e.now, cashCollected, q.actual, q.note));
      if !Int4(cashCollected) {
        Rollback();
        return Rejected(DbError);
      }
      var totalExpected := shift.opening + cashCollected;
      var discrepancy := q.actual - totalExpected;
      if discrepancy != 0 && (q.note.None? || q.note.value == "") {
        Rollback();
        return Rejected(NoteRequired);
      }
      var status := if discrepancy == 0 then CLOSED_OK else CLOSED_WITH_DISCREPANCY;
      shift := shift.(closedAt := Some(e.now), expected := Some(totalExpected));
      shift := shift.(actual := Some(q.actual), discrepancy := Some(discrepancy));
      shift := shift.(note := q.note, status := status);
      assert shift == Closed(found.value, e.now, cashCollected, q.actual, q.note);
      hide Closed;
      var ok := Reach();
      if ok {
        ok := Int4(totalExpected) && Int4(q.actual) && Int4(discrepancy);
      }
      if ok {
        shifts := SaveShift(shifts, shift);
        ok := Reach();
      }
      if ok {
        ledger := Freeze(ledger, e.tenant, openedAt, shift.id);
        ok := Reach();
      }
      if !ok {
        Rollback();
        return Rejected(DbError);
      }
      tenant := tenant.(activeShift := None);
      tenants := tenants[e.tenant := tenant];
      Commit();
      return ShiftSaved(shift);
    }

    method GetActiveSummary(tenant: Uuid) returns (r: Option<Summary>)
      ensures r == SummaryOf(committed, tenant)
      ensures Valid() && r.Some? ==> forall e: Env | Foretold(committed, tenant, e) ::
                ApplyClose(committed, e).reply.shift.expected == Some(r.value.expected)
                && PaidIn(ApplyClose(committed, e).store.ledger, ApplyClose(committed, e).reply.shift.id)
                   == r.value.expected - r.value.opening + r.value.transfers
    {
      ghost var s := committed;
      if Valid() && SummaryOf(s, tenant).Some? {
        forall e: Env | Foretold(s, tenant, e)
          ensures ApplyClose(s, e).reply.shift.expected == Some(SummaryOf(s, tenant).value.expected)
          ensures PaidIn(ApplyClose(s, e).store.ledger, ApplyClose(s, e).reply.shift.id)
               == SummaryOf(s, tenant).value.expected - SummaryOf(s, tenant).value.opening
                  + SummaryOf(s, tenant).value.transfers
        {
          SummaryForetellsClose(s, e);
        }
      }
      var activeShift := FindOpen(committed.shifts, tenant);
      if activeShift.None? {
        return Some(Summary(None, 0, 0, None, 0, 0));
      }
      var h := activeShift.value;
      var cash := CashDue(committed.ledger, tenant, h.openedAt);
      var transfers := TransferDue(committed.ledger, tenant, h.openedAt);
      if !Int4(cash) || !Int4(transfers) {
        return None;
      }
      var count := CashCount(committed.ledger, tenant, h.openedAt);
      return Some(Summary(Some(h.id), h.opening + cash, h.opening, Some(h.openedAt), count, transfers));
    }

    // ─── Any request ─────────────────────────────────────────────────────

    /** Serves any request: completely, as the engine's atomic step, or not at all; and keeps
        every invariant of the tables either way. */
    method Serve(e: Env, fault: Option<nat>) returns (r: Reply)
      requires Valid() && WellFormed(committed, e)
      modifies this
      ensures Valid()
      ensures Served(old(committed), Apply(old(committed), e), fault, committed, r)
    {
      ghost var s := committed;
      match e.request {
        case RegisterDebt(_, _, _, _) => r := RegisterDebt(e, fault);
        case RegisterPayment(_, _, _, _, _) => r := RegisterPayment(e, fault);
        case RegisterMixed(_, _, _, _, _, _, _, _, _, _) => r := RegisterMixedPayment(e, fault);
        case Forgive(_, _, _) => r := ForgiveDebt(e, fault);
        case Reverse(_, _, _) => r := ReverseTransaction(e, fault);
        case Inflate(_, _, _) => r := ApplyInflationAdjustment(e, fault);
        case CreateCustomer(_, _, _, _, _) => r := CreateCustomer(e, fault);
        case SetLimit(_, _) => r := UpdateCreditLimit(e, fault);
        case ToggleBlock(_) => r := ToggleBlock(e, fault);
        case Merge(_, _) => r := MergeCustomers(e, fault);
        case OpenTurn(_, _) => r := OpenTurn(e, fault);
        case CloseTurn(_, _) => r := CloseTurn(e, fault);
      }
      StepKeepsInv(s, e);
    }
  }
}
