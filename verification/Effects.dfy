/** What every request leaves in the tables and answers, column by column, in terms of the tables and
    the DTO alone: no rule of the engine is named, and every constant is written out. */
module Effects {
  import opened Domain
  import opened Rounding
  import opened Ledger
  import opened Till
  import opened Engine
  import opened Invariants

  // ─── What callers must ensure ──────────────────────────────────────────

  /** The amounts a request may carry, exactly: a posting one cent up to twenty million pesos, a limit
      none up to as much, cash in the drawer none or more. */
  lemma AdmittedExactly(s: Store, e: Env)
    ensures match e.request
      case RegisterDebt(_, amount, _, _) => WellFormed(s, e) <==> 1 <= amount <= 2000000000
      case RegisterPayment(_, amount, _, _, _) => WellFormed(s, e) <==> 1 <= amount <= 2000000000
      case RegisterMixed(_, total, cash, transfer, _, drift, _, _, _, groupId) =>
        WellFormed(s, e) <==>
          && 1 <= total <= 2000000000 && 1 <= cash <= 2000000000 && 1 <= transfer <= 2000000000
          && -0.5 < drift < 0.5 && forall i | 0 <= i < |s.ledger| :: s.ledger[i].group != Some(groupId)
      case CreateCustomer(_, limit, _, _, _) =>
        WellFormed(s, e) <==> (limit != None ==> 0 <= limit.value <= 2000000000)
      case SetLimit(_, limit) => WellFormed(s, e) <==> 0 <= limit <= 2000000000
      case OpenTurn(opening, _) => WellFormed(s, e) <==> (opening != None ==> 0 <= opening.value)
      case CloseTurn(actual, _) => WellFormed(s, e) <==> 0 <= actual
      case Inflate(rate, _, slots) =>
        WellFormed(s, e) <==> 0.0 < rate.percentage <= 1000.0 && Dependable(rate) && Enumerates(s, e.tenant, slots)
      case _ => WellFormed(s, e)
  {
  }

  // ─── Postings ──────────────────────────────────────────────────────────

  /** A row of the tenant under the key. */
  predicate Keyed(r: Row, tenant: Uuid, key: Uuid) {
    r.tenant == tenant && r.key == key
  }

  ghost predicate KeyUsed(l: seq<Row>, tenant: Uuid, key: Uuid) {
    exists i :: 0 <= i < |l| && Keyed(l[i], tenant, key)
  }

  ghost predicate IdUsed(l: seq<Row>, id: Uuid) {
    exists i :: 0 <= i < |l| && l[i].id == id
  }

  predicate HasCustomer(s: Store, tenant: Uuid, c: Uuid) {
    c in s.customers && s.customers[c].tenant == tenant
  }

  /** The request reaches the customer's row: the cash and transfer parts add up, no row has its key,
      and the customer is one of the tenant's. */
  ghost predicate Reaches(s: Store, e: Env)
    requires IsPosting(e.request)
  {
    && (e.request.RegisterMixed? ==> e.request.cash + e.request.transfer == e.request.total)
    && !KeyUsed(s.ledger, e.tenant, e.request.key) && HasCustomer(s, e.tenant, e.request.customer)
  }

  /** Before it: a mixed payment that does not add up is refused, then a key in the ledger is
      answered with its row, then an unknown customer is refused. */
  lemma EarlyAnswers(s: Store, e: Env)
    requires IsPosting(e.request)
    ensures var q, o := e.request, Apply(s, e);
            var fits := q.RegisterMixed? ==> q.cash + q.transfer == q.total;
            && (!fits ==> o == Outcome(s, Rejected(SumMismatch)))
            && (fits && KeyUsed(s.ledger, e.tenant, q.key) ==>
                  && o.store == s
                  && (!q.RegisterMixed? ==>
                        o.reply.Posted? && o.reply.row in s.ledger && Keyed(o.reply.row, e.tenant, q.key)))
            && (fits && !KeyUsed(s.ledger, e.tenant, q.key) && !HasCustomer(s, e.tenant, q.customer) ==>
                  o == Outcome(s, Rejected(NotFound)))
  {
    var existing := FindKey(s.ledger, e.tenant, e.request.key);
    if existing.Some? {
      var i := AtIndex(s.ledger, existing.value);
      assert Keyed(s.ledger[i], e.tenant, e.request.key);
    }
  }

  /** Row `r` is the row of the payment group of `x` paid in the given way, or, where there is none, `x`. */
  ghost predicate RowOfPair(l: seq<Row>, x: Row, way: PaymentMethod, r: Row) {
    if exists j :: 0 <= j < |l| && InGroupOf(l[j], x, way) then r in l && InGroupOf(r, x, way) else r == x
  }

  predicate InGroupOf(r: Row, x: Row, way: PaymentMethod) {
    x.group.Some? && r.group == x.group && r.paidBy == Some(way)
  }

  /** A repeated mixed payment is answered with both rows of its group. */
  lemma MixedReplay(s: Store, e: Env, i: nat)
    requires Unique(s.ledger) && e.request.RegisterMixed?
    requires e.request.cash + e.request.transfer == e.request.total
    requires i < |s.ledger| && Keyed(s.ledger[i], e.tenant, e.request.key)
    ensures var o, x := Apply(s, e), s.ledger[i];
            && o.store == s && o.reply.PostedPair?
            && RowOfPair(s.ledger, x, CASH, o.reply.cash) && RowOfPair(s.ledger, x, TRANSFER, o.reply.transfer)
  {
    hide Unique;
    var l, x := s.ledger, s.ledger[i];
    var k := AtIndex(l, FindKey(l, e.tenant, e.request.key).value);
    SameRow(l, i, k);
    if x.group.Some? {
      PairIsFound(l, x, CASH);
      PairIsFound(l, x, TRANSFER);
    }
  }

  lemma PairIsFound(l: seq<Row>, x: Row, way: PaymentMethod)
    requires x.group.Some?
    ensures var found := FindInGroup(l, x.group.value, way);
            RowOfPair(l, x, way, if found.Some? then found.value else x)
  {
    var found := FindInGroup(l, x.group.value, way);
    if found.Some? {
      var k := AtIndex(l, found.value);
      assert InGroupOf(l[k], x, way);
    }
  }

  /** The ledger gets one row more and one customer another balance; nothing else changes. */
  function Booked(s: Store, rows: seq<Row>, c: Uuid, balance: int): Store
    requires c in s.customers
  {
    Store(s.tenants, s.customers[c := s.customers[c].(balance := balance)], s.ledger + rows, s.batches, s.shifts)
  }

  lemma NewKeyIsNotFound(s: Store, e: Env)
    requires IsPosting(e.request) || e.request.Reverse?
    requires !KeyUsed(s.ledger, e.tenant, e.request.key)
    ensures FindKey(s.ledger, e.tenant, e.request.key).None?
  {
    forall i | 0 <= i < |s.ledger| ensures !(s.ledger[i].tenant == e.tenant && s.ledger[i].key == e.request.key) {
      assert !Keyed(s.ledger[i], e.tenant, e.request.key);
    }
  }

  /** The database takes one row under a new key exactly when its id is new and its amount fits. */
  lemma OneRowFits(l: seq<Row>, row: Row)
    requires !KeyUsed(l, row.tenant, row.key)
    ensures Insertable(l, [row]) <==> !IdUsed(l, row.id) && -2147483648 <= row.amount <= 2147483647
  {
    forall i | 0 <= i < |l| ensures Clash(l[i], [row][0]) <==> l[i].id == row.id {
      assert !Keyed(l[i], row.tenant, row.key);
    }
    if IdUsed(l, row.id) {
      var i :| 0 <= i < |l| && l[i].id == row.id;
      assert Clash(l[i], [row][0]);
    }
    assert [row][0] == row;
  }

  /** A debt: refused for a blocked customer, then over the limit; otherwise it is posted as asked,
      and within a limit that a column holds only a used row id can stop it. */
  lemma DebtEffect(s: Store, e: Env)
    requires e.request.RegisterDebt? && Reaches(s, e) && 0 <= e.request.amount <= 2000000000
    requires 0 <= s.customers[e.request.customer].balance && s.customers[e.request.customer].limit <= 2147483647
    ensures var q, o := e.request, Apply(s, e);
            var c := s.customers[q.customer];
            var row := Row(q.rowId, e.tenant, q.customer, DEBT, q.amount, None, None, q.key, None, false, None, e.now);
            o == if !c.active then Outcome(s, Rejected(Blocked))
                 else if c.balance + q.amount > c.limit then Outcome(s, Rejected(OverLimit))
                 else if IdUsed(s.ledger, q.rowId) then Outcome(s, Rejected(DbError))
                 else Outcome(Booked(s, [row], q.customer, c.balance + q.amount), Posted(row))
  {
    hide Insertable, IdUsed, KeyUsed;
    var q := e.request;
    NewKeyIsNotFound(s, e);
    OneRowFits(s.ledger,
        Row(q.rowId, e.tenant, q.customer, DEBT, q.amount, None, None, q.key, None, false, None, e.now));
  }

  /** A payment: refused without a debt; otherwise it takes the smaller of amount and debt, in cash
      unless the request says how it was paid. */
  lemma PaymentEffect(s: Store, e: Env)
    requires e.request.RegisterPayment? && Reaches(s, e) && 0 < e.request.amount <= 2000000000
    requires s.customers[e.request.customer].balance <= 2147483647
    ensures var q, o := e.request, Apply(s, e);
            var c := s.customers[q.customer];
            var paid := if q.amount <= c.balance then q.amount else c.balance;
            var how := match q.paidBy case None => CASH case Some(m) => m;
            var row := Row(q.rowId, e.tenant, q.customer, PAYMENT, paid, Some(how), None, q.key, None, false, None,
                           e.now);
            o == if c.balance <= 0 then Outcome(s, Rejected(NoDebt))
                 else if IdUsed(s.ledger, q.rowId) then Outcome(s, Rejected(DbError))
                 else Outcome(Booked(s, [row], q.customer, c.balance - paid), Posted(row))
  {
    hide Insertable, IdUsed, KeyUsed;
    var q := e.request;
    var c := s.customers[q.customer];
    var paid := if q.amount <= c.balance then q.amount else c.balance;
    var how := match q.paidBy case None => CASH case Some(m) => m;
    NewKeyIsNotFound(s, e);
    OneRowFits(s.ledger,
        Row(q.rowId, e.tenant, q.customer, PAYMENT, paid, Some(how), None, q.key, None, false, None, e.now));
  }

  /** Forgiveness: refused without a debt; otherwise a row of the whole debt clears it. */
  lemma ForgivenessEffect(s: Store, e: Env)
    requires e.request.Forgive? && Reaches(s, e) && s.customers[e.request.customer].balance <= 2147483647
    ensures var q, o := e.request, Apply(s, e);
            var c := s.customers[q.customer];
            var row := Row(q.rowId, e.tenant, q.customer, FORGIVENESS, c.balance, None, None, q.key, None, false, None,
                           e.now);
            o == if c.balance <= 0 then Outcome(s, Rejected(NoDebt))
                 else if IdUsed(s.ledger, q.rowId) then Outcome(s, Rejected(DbError))
                 else Outcome(Booked(s, [row], q.customer, 0), Posted(row))
  {
    hide Insertable, IdUsed, KeyUsed;
    var q := e.request;
    NewKeyIsNotFound(s, e);
    OneRowFits(s.ledger, Row(q.rowId, e.tenant, q.customer, FORGIVENESS, s.customers[q.customer].balance, None, None,
                             q.key, None, false, None, e.now));
  }

  /** The parts a mixed payment is booked in. Up to the debt they are booked as offered. Beyond it the
      cash row is the cash times debt over total, product error included, rounded with halves up, and
      the transfer row is the rest of the debt. */
  predicate SplitOf(q: Request, balance: int, cash: int, transfer: int)
    requires q.RegisterMixed? && q.total > 0
  {
    if q.total <= balance then cash == q.cash && transfer == q.transfer
    else
      && transfer == balance - cash
      && cash as real - 0.5 <= q.cash as real * balance as real / q.total as real + q.drift < cash as real + 0.5
  }

  lemma ProrateIsSplit(q: Request, balance: int)
    requires q.RegisterMixed? && q.total > 0 && balance > 0
    ensures var parts := Prorate(q.total, q.cash, q.transfer, balance, q.drift);
            SplitOf(q, balance, parts.0, parts.1)
  {
    if balance < q.total {
      assert Share(q.cash, balance, q.total) == q.cash as real * balance as real / q.total as real;
    }
  }

  /** A mixed payment: refused without a debt; otherwise two rows of one group, cash and transfer,
      take the smaller of total and debt. */
  lemma MixedEffect(s: Store, e: Env) returns (cash: int, transfer: int)
    requires e.request.RegisterMixed? && Reaches(s, e) && 0 < e.request.total <= 2000000000
    requires 0 < e.request.cash && 0 < e.request.transfer && -0.5 < e.request.drift < 0.5
    requires s.customers[e.request.customer].balance <= 2147483647
    ensures var q, o := e.request, Apply(s, e);
            var c, g := s.customers[q.customer], Some(q.groupId);
            var one := Row(q.cashId, e.tenant, q.customer, PAYMENT, cash, Some(CASH), g, q.key, None, false, None,
                           e.now);
            var two := Row(q.transferId, e.tenant, q.customer, PAYMENT, transfer, Some(TRANSFER), g, q.transferKey,
                           None, false, None, e.now);
            if c.balance <= 0 then o == Outcome(s, Rejected(NoDebt))
            else
              && SplitOf(q, c.balance, cash, transfer) && 0 <= cash <= q.cash && 0 <= transfer <= q.transfer
              && cash + transfer == (if q.total <= c.balance then q.total else c.balance)
              && o == if q.cashId == q.transferId || q.key == q.transferKey
                         || KeyUsed(s.ledger, e.tenant, q.transferKey)
                         || IdUsed(s.ledger, q.cashId) || IdUsed(s.ledger, q.transferId)
                      then Outcome(s, Rejected(DbError))
                      else Outcome(Booked(s, [one, two], q.customer, c.balance - cash - transfer), PostedPair(one, two))
  {
    hide Insertable, IdUsed, KeyUsed;
    var q := e.request;
    var c, g := s.customers[q.customer], Some(q.groupId);
    var parts := if c.balance > 0 then Prorate(q.total, q.cash, q.transfer, c.balance, q.drift) else (0, 0);
    cash, transfer := parts.0, parts.1;
    NewKeyIsNotFound(s, e);
    if c.balance > 0 {
      ProrateSplitsExactly(q.total, q.cash, q.transfer, c.balance, q.drift);
      ProrateIsSplit(q, c.balance);
      var one := Row(q.cashId, e.tenant, q.customer, PAYMENT, cash, Some(CASH), g, q.key, None, false, None, e.now);
      var two := Row(q.transferId, e.tenant, q.customer, PAYMENT, transfer, Some(TRANSFER), g, q.transferKey, None,
                     false, None, e.now);
      TwoRowsFit(s.ledger, one, two);
    }
  }

  lemma TwoRowsFit(l: seq<Row>, one: Row, two: Row)
    requires one.tenant == two.tenant && !KeyUsed(l, one.tenant, one.key)
    requires 0 <= one.amount <= 2147483647 && 0 <= two.amount <= 2147483647
    ensures Insertable(l, [one, two]) <==>
              && one.id != two.id && one.key != two.key && !KeyUsed(l, two.tenant, two.key)
              && !IdUsed(l, one.id) && !IdUsed(l, two.id)
  {
    InsertOneMore(l, [one], two);
    assert [one] + [two] == [one, two];
    OneRowFits(l, one);
    assert KeyUsed(l + [one], two.tenant, two.key) <==> KeyUsed(l, two.tenant, two.key) || one.key == two.key by {
      UsedInLonger(l, one, two);
    }
    if !KeyUsed(l + [one], two.tenant, two.key) {
      OneRowFits(l + [one], two);
      UsedInLonger(l, one, two);
    } else {
      var i :| 0 <= i < |l + [one]| && Keyed((l + [one])[i], two.tenant, two.key);
      assert Clash((l + [one])[i], [two][0]);
    }
  }

  lemma UsedInLonger(l: seq<Row>, one: Row, two: Row)
    requires one.tenant == two.tenant
    ensures KeyUsed(l + [one], two.tenant, two.key) <==> KeyUsed(l, two.tenant, two.key) || one.key == two.key
    ensures IdUsed(l + [one], two.id) <==> IdUsed(l, two.id) || one.id == two.id
  {
    var m := l + [one];
    assert m[|l|] == one;
    assert Keyed(one, two.tenant, two.key) <==> one.key == two.key;
    if KeyUsed(l, two.tenant, two.key) {
      var i :| 0 <= i < |l| && Keyed(l[i], two.tenant, two.key);
      assert Keyed(m[i], two.tenant, two.key);
    }
    if one.key == two.key {
      assert Keyed(m[|l|], two.tenant, two.key);
    }
    if IdUsed(l, two.id) {
      var i :| 0 <= i < |l| && l[i].id == two.id;
      assert m[i].id == two.id;
    }
  }

  // ─── Reversal ──────────────────────────────────────────────────────────

  /** A reversal of row `k`: refused if the row is reversed already; otherwise it marks the row, adds a
      REVERSAL row of its amount for its customer, and takes the amount off the balance if the row was
      a debt or a surcharge, never below zero, or puts it on if it was anything else. */
  lemma ReversalEffect(s: Store, e: Env, k: nat)
    requires Inv(s) && e.request.Reverse? && !KeyUsed(s.ledger, e.tenant, e.request.key)
    requires k < |s.ledger| && s.ledger[k].id == e.request.target && s.ledger[k].tenant == e.tenant
    requires s.ledger[k].amount <= 2147483647
    ensures var q, o, r := e.request, Apply(s, e), s.ledger[k];
            && HasCustomer(s, e.tenant, r.customer)
            && var c := s.customers[r.customer];
            var balance := match r.kind
              case DEBT => if c.balance < r.amount then 0 else c.balance - r.amount
              case INFLATION_ADJUSTMENT => if c.balance < r.amount then 0 else c.balance - r.amount
              case _ => c.balance + r.amount;
            var row := Row(q.rowId, e.tenant, r.customer, REVERSAL, r.amount, None, None, q.key, Some(r.id), false,
                           None, e.now);
            o == if r.reversed then Outcome(s, Rejected(AlreadyReversed))
                 else if IdUsed(s.ledger, q.rowId) || balance > 2147483647 then Outcome(s, Rejected(DbError))
                 else Outcome(
                        Store(s.tenants, s.customers[r.customer := c.(balance := balance)],
                              s.ledger[k := r.(reversed := true)] + [row], s.batches, s.shifts),
                        Posted(row))
  {
    hide Linked, Sealed, Semaphore, Insertable, IdUsed, KeyUsed, Unique;
    var q, r := e.request, s.ledger[k];
    NewKeyIsNotFound(s, e);
    TargetIsFound(s.ledger, e.tenant, k);
    var row := Row(q.rowId, e.tenant, r.customer, REVERSAL, r.amount, None, None, q.key, Some(r.id), false, None,
                   e.now);
    OneRowFits(s.ledger, row);
    if !IdUsed(s.ledger, q.rowId) {
      MarkOneOf(s.ledger, k, row);
    }
  }

  lemma TargetIsFound(l: seq<Row>, tenant: Uuid, k: nat)
    requires Unique(l) && k < |l| && l[k].tenant == tenant
    ensures FindTx(l, tenant, l[k].id) == Some(l[k])
  {
    var i := AtIndex(l, FindTx(l, tenant, l[k].id).value);
    SameRow(l, i, k);
  }

  lemma MarkOneOf(l: seq<Row>, k: nat, row: Row)
    requires Unique(l) && k < |l| && !IdUsed(l, row.id)
    ensures MarkReversed(l + [row], l[k].id) == l[k := l[k].(reversed := true)] + [row]
  {
    forall i | 0 <= i < |l| && l[i].id == l[k].id ensures i == k {
      SameRow(l, i, k);
    }
  }

  /** A reversal under a key in the ledger is answered with that row; of a row that the tenant does
      not have it is refused. */
  lemma ReversalEarlyAnswers(s: Store, e: Env)
    requires e.request.Reverse?
    ensures var q, o := e.request, Apply(s, e);
            if KeyUsed(s.ledger, e.tenant, q.key) then
              o.store == s && o.reply.Posted? && o.reply.row in s.ledger && Keyed(o.reply.row, e.tenant, q.key)
            else
              (forall i | 0 <= i < |s.ledger| :: !(s.ledger[i].id == q.target && s.ledger[i].tenant == e.tenant)) ==>
                o == Outcome(s, Rejected(NotFound))
  {
    var existing := FindKey(s.ledger, e.tenant, e.request.key);
    if existing.Some? {
      var i := AtIndex(s.ledger, existing.value);
      assert Keyed(s.ledger[i], e.tenant, e.request.key);
    } else if forall i | 0 <= i < |s.ledger| ::
        !(s.ledger[i].id == e.request.target && s.ledger[i].tenant == e.tenant) {
      var found := FindTx(s.ledger, e.tenant, e.request.target);
      if found.Some? {
        var i := AtIndex(s.ledger, found.value);
      }
    }
  }

  // ─── Customers ─────────────────────────────────────────────────────────

  /** A new limit is set whatever the debt; nothing else changes. */
  lemma LimitEffect(s: Store, e: Env)
    requires e.request.SetLimit? && 0 <= e.request.limit <= 2000000000
    ensures var q, o := e.request, Apply(s, e);
            if !HasCustomer(s, e.tenant, q.customer) then o == Outcome(s, Rejected(NotFound))
            else
              var c := s.customers[q.customer].(limit := q.limit);
              o == Outcome(s.(customers := s.customers[q.customer := c]), CustomerSaved(q.customer, c))
  {
  }

  /** Blocking and unblocking flips the flag and nothing else. */
  lemma ToggleEffect(s: Store, e: Env)
    requires e.request.ToggleBlock?
    ensures var q, o := e.request, Apply(s, e);
            if !HasCustomer(s, e.tenant, q.customer) then o == Outcome(s, Rejected(NotFound))
            else
              var c := s.customers[q.customer].(active := !s.customers[q.customer].active);
              o == Outcome(s.(customers := s.customers[q.customer := c]), CustomerSaved(q.customer, c))
  {
  }

  /** A customer of the tenant created under the key. */
  ghost predicate Named(s: Store, tenant: Uuid, key: Uuid, c: Uuid) {
    HasCustomer(s, tenant, c) && s.customers[c].key == Some(key)
  }

  ghost predicate PhoneTakenBy(s: Store, tenant: Uuid, phone: string, c: Uuid) {
    HasCustomer(s, tenant, c) && s.customers[c].phone == Some(phone)
  }

  ghost predicate DniTakenBy(s: Store, tenant: Uuid, dni: string, c: Uuid) {
    HasCustomer(s, tenant, c) && s.customers[c].dni == Some(dni)
  }

  /** A creation: under a key of a customer it returns that customer; then a phone or DNI in use, if
      not empty, is refused; otherwise the customer is stored active, without debt, under the limit
      asked for or none. */
  lemma CreateEffect(s: Store, e: Env)
    requires e.request.CreateCustomer? && (e.request.newLimit.Some? ==> 0 <= e.request.newLimit.value <= 2000000000)
    ensures var q, o := e.request, Apply(s, e);
            var known := exists k, c :: q.newKey == Some(k) && Named(s, e.tenant, k, c);
            var phone := exists p, c :: q.phone == Some(p) && p != "" && PhoneTakenBy(s, e.tenant, p, c);
            var dni := exists d, c :: q.dni == Some(d) && d != "" && DniTakenBy(s, e.tenant, d, c);
            var limit := match q.newLimit case None => 0 case Some(n) => n;
            var saved := Customer(e.tenant, 0, limit, true, q.phone, q.dni, q.newKey);
            if known then
              o.store == s && o.reply.CustomerSaved? && Named(s, e.tenant, q.newKey.value, o.reply.id)
              && o.reply.saved == s.customers[o.reply.id]
            else
              o == if phone then Outcome(s, Rejected(PhoneTaken))
                   else if dni then Outcome(s, Rejected(DniTaken))
                   else if q.id in s.customers || e.tenant !in s.tenants then Outcome(s, Rejected(DbError))
                   else Outcome(s.(customers := s.customers[q.id := saved]), CustomerSaved(q.id, saved))
  {
    var q := e.request;
    assert forall k, c :: Named(s, e.tenant, k, c) <==> KeyTaken(s, e.tenant, k, c);
    if q.phone.Some? && PhoneInUse(s, e.tenant, q.phone.value) {
      var c :| Owns(s, e.tenant, c) && s.customers[c].phone == Some(q.phone.value);
      assert PhoneTakenBy(s, e.tenant, q.phone.value, c);
    }
    if q.dni.Some? && DniInUse(s, e.tenant, q.dni.value) {
      var c :| Owns(s, e.tenant, c) && s.customers[c].dni == Some(q.dni.value);
      assert DniTakenBy(s, e.tenant, q.dni.value, c);
    }
  }

  /** A merge: a customer is not merged with itself, both must be the tenant's, the smaller id being
      looked up first, and what both owe must fit the column. Then the primary owes it under the larger
      limit and owns the rows of both, the secondary is blocked and owes nothing, and nothing else
      changes of either. */
  lemma MergeEffect(s: Store, e: Env)
    requires e.request.Merge?
    requires forall c | c in s.customers :: 0 <= s.customers[c].balance
    ensures var p, q, o := e.request.primary, e.request.secondary, Apply(s, e);
            if p == q then o == Outcome(s, Rejected(SelfMerge))
            else if !HasCustomer(s, e.tenant, p) && (p < q || HasCustomer(s, e.tenant, q)) then
              o == Outcome(s, Rejected(PrimaryMissing))
            else if !HasCustomer(s, e.tenant, q) then o == Outcome(s, Rejected(SecondaryMissing))
            else
              var a, b := s.customers[p], s.customers[q];
              if a.balance + b.balance > 2147483647 then o == Outcome(s, Rejected(DbError))
              else
                var joined := Customer(a.tenant, a.balance + b.balance, if a.limit < b.limit then b.limit else a.limit,
                                       a.active, a.phone, a.dni, a.key);
                var rest := Customer(b.tenant, 0, b.limit, false, b.phone, b.dni, b.key);
                && o.reply == CustomerSaved(p, joined)
                && o.store == s.(ledger := o.store.ledger, customers := s.customers[p := joined][q := rest])
                && |o.store.ledger| == |s.ledger|
                && forall i | 0 <= i < |s.ledger| ::
                     o.store.ledger[i] ==
                     if s.ledger[i].tenant == e.tenant && s.ledger[i].customer == q then s.ledger[i].(customer := p)
                     else s.ledger[i]
  {
  }

  // ─── Cash register ─────────────────────────────────────────────────────

  /** Opening a shift: one at a time, with the cash declared or none. */
  lemma OpenEffect(s: Store, e: Env)
    requires e.request.OpenTurn?
    requires e.request.opening.Some? ==> 0 <= e.request.opening.value <= 2147483647
    ensures var q, o := e.request, Apply(s, e);
            var opening := match q.opening case None => 0 case Some(n) => n;
            var h := Shift(q.shiftId, e.tenant, e.now, None, opening, None, None, None, None, OPEN);
            o == if e.tenant !in s.tenants then Outcome(s, Rejected(NotFound))
                 else if s.tenants[e.tenant].activeShift != None then Outcome(s, Rejected(TurnAlreadyOpen))
                 else if exists i :: 0 <= i < |s.shifts| && s.shifts[i].id == q.shiftId then
                   Outcome(s, Rejected(DbError))
                 else
                   Outcome(s.(shifts := s.shifts + [h], tenants := s.tenants[e.tenant := Tenant(Some(q.shiftId))]),
                           ShiftSaved(h))
  {
  }

  /** A payment of the tenant after the opening, not reversed and in no shift. */
  predicate Unsettled(r: Row, tenant: Uuid, openedAt: int) {
    && r.tenant == tenant && r.kind == PAYMENT && openedAt < r.createdAt && r.reversed == false && r.shift == None
  }

  /** The unsettled payments made in one of the ways, in cents and in number. */
  function Received(l: seq<Row>, tenant: Uuid, openedAt: int, ways: set<Option<PaymentMethod>>): int {
    if l == [] then 0
    else
      var r := l[|l| - 1];
      Received(l[..|l| - 1], tenant, openedAt, ways)
      + if Unsettled(r, tenant, openedAt) && r.paidBy in ways then r.amount else 0
  }

  function Receipts(l: seq<Row>, tenant: Uuid, openedAt: int, ways: set<Option<PaymentMethod>>): nat {
    if l == [] then 0
    else
      var r := l[|l| - 1];
      Receipts(l[..|l| - 1], tenant, openedAt, ways)
      + if Unsettled(r, tenant, openedAt) && r.paidBy in ways then 1 else 0
  }

  lemma {:induction false} DueIsReceived(l: seq<Row>, tenant: Uuid, openedAt: int)
    ensures CashDue(l, tenant, openedAt) == Received(l, tenant, openedAt, {None, Some(CASH)})
    ensures CashCount(l, tenant, openedAt) == Receipts(l, tenant, openedAt, {None, Some(CASH)})
    ensures TransferDue(l, tenant, openedAt) == Received(l, tenant, openedAt, {Some(TRANSFER)})
  {
    if l != [] {
      DueIsReceived(l[..|l| - 1], tenant, openedAt);
    }
  }

  predicate FitsInt(n: int) {
    -2147483648 <= n <= 2147483647
  }

  /** Closing the tenant's open shift `k`: expected is the opening cash plus the unsettled payments made
      in cash or in no stated way. A difference needs a note. The shift keeps what was expected, what
      was counted, the difference and the note; all unsettled payments, transfers too, go into it. */
  lemma CloseEffect(s: Store, e: Env, k: nat)
    requires Inv(s) && e.request.CloseTurn? && k < |s.shifts|
    requires s.shifts[k].tenant == e.tenant && s.shifts[k].status == OPEN
    ensures var q, o, h := e.request, Apply(s, e), s.shifts[k];
            var cash := Received(s.ledger, e.tenant, h.openedAt, {None, Some(CASH)});
            var expected := h.opening + cash;
            var closed := Shift(h.id, h.tenant, h.openedAt, Some(e.now), h.opening, Some(expected), Some(q.actual),
                                Some(q.actual - expected), q.note,
                                if q.actual == expected then CLOSED_OK else CLOSED_WITH_DISCREPANCY);
            if !FitsInt(cash) then o == Outcome(s, Rejected(DbError))
            else if q.actual != expected && (q.note == None || q.note == Some("")) then
              o == Outcome(s, Rejected(NoteRequired))
            else if !(FitsInt(expected) && FitsInt(q.actual) && FitsInt(q.actual - expected)) then
              o == Outcome(s, Rejected(DbError))
            else
              && o.reply == ShiftSaved(closed)
              && o.store == Store(s.tenants[e.tenant := Tenant(None)], s.customers, o.store.ledger, s.batches,
                                  s.shifts[k := closed])
              && |o.store.ledger| == |s.ledger|
              && forall i | 0 <= i < |s.ledger| ::
                   o.store.ledger[i] ==
                   if Unsettled(s.ledger[i], e.tenant, h.openedAt) then s.ledger[i].(shift := Some(h.id))
                   else s.ledger[i]
  {
    hide Inv, Semaphore, UniqueShifts, CashDue, Received, ApplyClose, Freeze, SaveShift, FindOpenById, Closed, Int4,
      FitsInt, Pending, Unsettled;
    var h := s.shifts[k];
    ShiftsOfInv(s);
    FreezeIs(s.ledger, e.tenant, h.openedAt, h.id);
    var closed := Closed(h, e.now, CashDue(s.ledger, e.tenant, h.openedAt), e.request.actual, e.request.note);
    ClosedIs(h, e.now, CashDue(s.ledger, e.tenant, h.openedAt), e.request.actual, e.request.note);
    ColumnsAreInts();
    OpenIsNamed(s, k);
    DueIsReceived(s.ledger, e.tenant, h.openedAt);
    SaveIsUpdate(s.shifts, k, closed);
    CloseServes(s, e, h, closed);
    ApplyCloses(s, e);
  }

  lemma ClosedIs(h: Shift, now: int, cash: int, actual: int, note: Option<string>)
    ensures Closed(h, now, cash, actual, note)
         == Shift(h.id, h.tenant, h.openedAt, Some(now), h.opening, Some(h.opening + cash), Some(actual),
                  Some(actual - (h.opening + cash)), note,
                  if actual == h.opening + cash then CLOSED_OK else CLOSED_WITH_DISCREPANCY)
  {
  }

  lemma ShiftsOfInv(s: Store)
    requires Inv(s)
    ensures Semaphore(s.tenants, s.shifts) && UniqueShifts(s.shifts)
  {
  }

  lemma FreezeIs(l: seq<Row>, tenant: Uuid, openedAt: int, shift: Uuid)
    ensures var m := Freeze(l, tenant, openedAt, shift);
            && |m| == |l|
            && forall i | 0 <= i < |l| ::
                 m[i] == if Unsettled(l[i], tenant, openedAt) then l[i].(shift := Some(shift)) else l[i]
  {
  }

  lemma ColumnsAreInts()
    ensures forall n :: Int4(n) <==> FitsInt(n)
  {
  }

  lemma ApplyCloses(s: Store, e: Env)
    requires e.request.CloseTurn?
    ensures Apply(s, e) == ApplyClose(s, e)
  {
    hide ApplyClose;
  }

  /** The open shift is the one both lookups find. */
  lemma OpenIsNamed(s: Store, k: nat)
    requires Semaphore(s.tenants, s.shifts) && UniqueShifts(s.shifts) && k < |s.shifts| && s.shifts[k].status == OPEN
    ensures var h := s.shifts[k];
            && h.tenant in s.tenants && s.tenants[h.tenant].activeShift == Some(h.id)
            && FindOpenById(s.shifts, h.tenant, h.id) == Some(h) && FindOpen(s.shifts, h.tenant) == Some(h)
  {
    var h := s.shifts[k];
    var byId := FindOpenById(s.shifts, h.tenant, h.id).value;
    var i :| 0 <= i < |s.shifts| && s.shifts[i] == byId;
    var byStatus := FindOpen(s.shifts, h.tenant).value;
    var j :| 0 <= j < |s.shifts| && s.shifts[j] == byStatus;
  }

  lemma SaveIsUpdate(shifts: seq<Shift>, k: nat, h: Shift)
    requires UniqueShifts(shifts) && k < |shifts| && h.id == shifts[k].id
    ensures SaveShift(shifts, h) == shifts[k := h]
  {
  }

  /** A tenant that exists but has no open shift has nothing to close. */
  lemma CloseRefused(s: Store, e: Env)
    requires Inv(s) && e.request.CloseTurn?
    requires forall k | 0 <= k < |s.shifts| :: !(s.shifts[k].tenant == e.tenant && s.shifts[k].status == OPEN)
    ensures Apply(s, e) == Outcome(s, Rejected(if e.tenant in s.tenants then NoOpenTurn else NotFound))
  {
  }

  /** The figures of the same open shift over other rows. */
  lemma SummaryStays(s: Store, t: Store, k: nat)
    requires Semaphore(s.tenants, s.shifts) && UniqueShifts(s.shifts) && k < |s.shifts| && s.shifts[k].status == OPEN
    requires t.shifts == s.shifts && t.tenants == s.tenants
    ensures var h := s.shifts[k];
            var cash := Received(t.ledger, h.tenant, h.openedAt, {None, Some(CASH)});
            var transfers := Received(t.ledger, h.tenant, h.openedAt, {Some(TRANSFER)});
            SummaryOf(t, h.tenant) ==
              if !FitsInt(cash) || !FitsInt(transfers) then None
              else Some(Summary(Some(h.id), h.opening + cash, h.opening, Some(h.openedAt),
                                Receipts(t.ledger, h.tenant, h.openedAt, {None, Some(CASH)}), transfers))
  {
    hide Received, Receipts, CashDue, TransferDue, CashCount;
    OpenIsNamed(s, k);
    DueIsReceived(t.ledger, s.shifts[k].tenant, s.shifts[k].openedAt);
  }

  /** The summary of the open shift `k`, to the column. */
  lemma SummaryEffect(s: Store, k: nat)
    requires Inv(s) && k < |s.shifts| && s.shifts[k].status == OPEN
    ensures var h := s.shifts[k];
            var cash := Received(s.ledger, h.tenant, h.openedAt, {None, Some(CASH)});
            var transfers := Received(s.ledger, h.tenant, h.openedAt, {Some(TRANSFER)});
            SummaryOf(s, h.tenant) ==
              if !FitsInt(cash) || !FitsInt(transfers) then None
              else Some(Summary(Some(h.id), h.opening + cash, h.opening, Some(h.openedAt),
                                Receipts(s.ledger, h.tenant, h.openedAt, {None, Some(CASH)}), transfers))
  {
    hide Linked, Tidy, Owned, Solvent, Unique, Semaphore, Accounted, Received, Receipts, SummaryOf;
    SummaryStays(s, s, k);
  }

  // ─── What a payment does to the drawer ─────────────────────────────────

  lemma OneMoreReceipt(l: seq<Row>, r: Row, tenant: Uuid, openedAt: int, ways: set<Option<PaymentMethod>>)
    ensures var counts := Unsettled(r, tenant, openedAt) && r.paidBy in ways;
            && Received(l + [r], tenant, openedAt, ways)
               == Received(l, tenant, openedAt, ways) + (if counts then r.amount else 0)
            && Receipts(l + [r], tenant, openedAt, ways)
               == Receipts(l, tenant, openedAt, ways) + (if counts then 1 else 0)
  {
    assert (l + [r])[..|l + [r]| - 1] == l;
  }

  /** The summary once the drawer holds `cash` more, in `notes` payments, and `wired` was transferred. */
  function Raised(x: Summary, cash: int, notes: nat, wired: int): Summary {
    Summary(x.shiftId, x.expected + cash, x.opening, x.openedAt, x.count + notes, x.transfers + wired)
  }

  /** Shift `k` is open, and the request comes after its opening. */
  predicate During(s: Store, e: Env, k: nat) {
    k < |s.shifts| && s.shifts[k].status == OPEN && s.shifts[k].tenant == e.tenant && s.shifts[k].openedAt < e.now
  }

  /** While a shift is open a payment raises the expected cash of the summary by what it takes off the
      debt, and the count by one, if it is in cash or does not say how it is made; a transfer raises the
      transfers alone. */
  lemma PaymentRaisesSummary(s: Store, e: Env, k: nat)
    requires Inv(s) && e.request.RegisterPayment? && Reaches(s, e) && 0 < e.request.amount <= 2000000000
    requires During(s, e, k) && Apply(s, e).reply.Posted?
    requires SummaryOf(s, e.tenant).Some? && SummaryOf(Apply(s, e).store, e.tenant).Some?
    ensures var t, q := Apply(s, e).store, e.request;
            var paid := s.customers[q.customer].balance - t.customers[q.customer].balance;
            SummaryOf(t, e.tenant).value ==
              match q.paidBy
              case None => Raised(SummaryOf(s, e.tenant).value, paid, 1, 0)
              case Some(CASH) => Raised(SummaryOf(s, e.tenant).value, paid, 1, 0)
              case Some(TRANSFER) => Raised(SummaryOf(s, e.tenant).value, 0, 0, paid)
  {
    hide Linked, Tidy, Owned, Semaphore, Accounted, Unique, Received, Receipts, SummaryOf, KeyUsed, IdUsed, Apply;
    var t, h := Apply(s, e).store, s.shifts[k];
    PaymentEffect(s, e);
    var row := Apply(s, e).reply.row;
    OneMoreReceipt(s.ledger, row, e.tenant, h.openedAt, {None, Some(CASH)});
    OneMoreReceipt(s.ledger, row, e.tenant, h.openedAt, {Some(TRANSFER)});
    SummaryEffect(s, k);
    SummaryStays(s, t, k);
  }

  /** What a close that succeeds expects. */
  lemma CloseExpects(s: Store, e: Env, k: nat)
    requires Inv(s) && e.request.CloseTurn? && Apply(s, e).reply.ShiftSaved?
    requires k < |s.shifts| && s.shifts[k].tenant == e.tenant && s.shifts[k].status == OPEN
    ensures Apply(s, e).reply.shift.expected
         == Some(s.shifts[k].opening + Received(s.ledger, e.tenant, s.shifts[k].openedAt, {None, Some(CASH)}))
  {
    hide Inv, Received, Apply;
    CloseEffect(s, e, k);
  }

  /** So does the next close: what it expects rises by what a payment in cash took off the debt, and
      by nothing for a transfer. */
  lemma PaymentRaisesClose(s: Store, e: Env, k: nat, f: Env, g: Env)
    requires Inv(s) && e.request.RegisterPayment? && Reaches(s, e) && 0 < e.request.amount <= 2000000000
    requires During(s, e, k) && Apply(s, e).reply.Posted?
    requires f.request.CloseTurn? && f.tenant == e.tenant && Apply(s, f).reply.ShiftSaved?
    requires g.request.CloseTurn? && g.tenant == e.tenant && Apply(Apply(s, e).store, g).reply.ShiftSaved?
    ensures var t, q := Apply(s, e).store, e.request;
            var before, after := Apply(s, f).reply.shift.expected, Apply(t, g).reply.shift.expected;
            before.Some? && after.Some? &&
            after.value - before.value ==
              match q.paidBy
              case None => s.customers[q.customer].balance - t.customers[q.customer].balance
              case Some(CASH) => s.customers[q.customer].balance - t.customers[q.customer].balance
              case Some(TRANSFER) => 0
  {
    hide Inv, Received, Receipts, KeyUsed, IdUsed, Apply;
    var t, h := Apply(s, e).store, s.shifts[k];
    BalancesFit(s);
    PaymentEffect(s, e);
    PostingApplies(s, e);
    PostingKeepsInv(s, e);
    OneMoreReceipt(s.ledger, Apply(s, e).reply.row, e.tenant, h.openedAt, {None, Some(CASH)});
    CloseExpects(s, f, k);
    CloseExpects(t, g, k);
  }

  lemma BalancesFit(s: Store)
    requires Inv(s)
    ensures forall c | c in s.customers :: 0 <= s.customers[c].balance <= 2147483647
  {
  }

  lemma PostingApplies(s: Store, e: Env)
    requires IsPosting(e.request)
    ensures Apply(s, e) == ApplyPosting(s, e)
  {
    hide ApplyPosting;
  }

  /** A mixed payment raises the expected cash by its cash row, the count by one, and the transfers by
      its transfer row; the two together are what it takes off the debt. */
  lemma MixedRaisesSummary(s: Store, e: Env, k: nat)
    requires Inv(s) && e.request.RegisterMixed? && Reaches(s, e) && 0 < e.request.total <= 2000000000
    requires 0 < e.request.cash && 0 < e.request.transfer && -0.5 < e.request.drift < 0.5
    requires During(s, e, k) && Apply(s, e).reply.PostedPair?
    requires SummaryOf(s, e.tenant).Some? && SummaryOf(Apply(s, e).store, e.tenant).Some?
    ensures var t, c, r := Apply(s, e).store, e.request.customer, Apply(s, e).reply;
            && SummaryOf(t, e.tenant).value
               == Raised(SummaryOf(s, e.tenant).value, r.cash.amount, 1, r.transfer.amount)
            && r.cash.amount + r.transfer.amount == s.customers[c].balance - t.customers[c].balance
  {
    hide Linked, Tidy, Owned, Semaphore, Accounted, Unique, Received, Receipts, SummaryOf, KeyUsed, IdUsed, Apply,
      SplitOf;
    var t, h, r := Apply(s, e).store, s.shifts[k], Apply(s, e).reply;
    var cash, transfer := MixedEffect(s, e);
    assert s.ledger + [r.cash, r.transfer] == (s.ledger + [r.cash]) + [r.transfer];
    forall ways: set<Option<PaymentMethod>> ensures
      Received(t.ledger, e.tenant, h.openedAt, ways)
      == Received(s.ledger, e.tenant, h.openedAt, ways) + (if Some(CASH) in ways then cash else 0)
         + (if Some(TRANSFER) in ways then transfer else 0)
      && Receipts(t.ledger, e.tenant, h.openedAt, ways)
      == Receipts(s.ledger, e.tenant, h.openedAt, ways) + (if Some(CASH) in ways then 1 else 0)
         + (if Some(TRANSFER) in ways then 1 else 0)
    {
      OneMoreReceipt(s.ledger, r.cash, e.tenant, h.openedAt, ways);
      OneMoreReceipt(s.ledger + [r.cash], r.transfer, e.tenant, h.openedAt, ways);
    }
    SummaryEffect(s, k);
    SummaryStays(s, t, k);
  }

  lemma {:induction false} OneLessReceipt(l: seq<Row>, n: nat, tenant: Uuid, openedAt: int,
                                          ways: set<Option<PaymentMethod>>)
    requires n < |l| && Unsettled(l[n], tenant, openedAt)
    ensures var m, own := l[n := l[n].(reversed := true)], l[n].paidBy in ways;
            && Received(m, tenant, openedAt, ways)
               == Received(l, tenant, openedAt, ways) - (if own then l[n].amount else 0)
            && Receipts(m, tenant, openedAt, ways) == Receipts(l, tenant, openedAt, ways) - (if own then 1 else 0)
  {
    var m, end := l[n := l[n].(reversed := true)], |l| - 1;
    if n < end {
      OneLessReceipt(l[..end], n, tenant, openedAt, ways);
      assert m[..end] == l[..end][n := l[n].(reversed := true)];
    } else {
      assert m[..end] == l[..end];
    }
  }

  /** Reversing a payment that no shift has counted yet takes it out of the summary again. */
  lemma ReversalLowersSummary(s: Store, e: Env, k: nat, n: nat)
    requires Inv(s) && e.request.Reverse? && !KeyUsed(s.ledger, e.tenant, e.request.key)
    requires n < |s.ledger| && s.ledger[n].id == e.request.target && s.ledger[n].amount <= 2147483647
    requires During(s, e, k) && Unsettled(s.ledger[n], e.tenant, s.shifts[k].openedAt) && Apply(s, e).reply.Posted?
    requires SummaryOf(s, e.tenant).Some? && SummaryOf(Apply(s, e).store, e.tenant).Some?
    ensures var t, r := Apply(s, e).store, s.ledger[n];
            SummaryOf(s, e.tenant).value ==
              match r.paidBy
              case None => Raised(SummaryOf(t, e.tenant).value, r.amount, 1, 0)
              case Some(CASH) => Raised(SummaryOf(t, e.tenant).value, r.amount, 1, 0)
              case Some(TRANSFER) => Raised(SummaryOf(t, e.tenant).value, 0, 0, r.amount)
  {
    hide Linked, Tidy, Owned, Solvent, Semaphore, Accounted, Unique, Received, Receipts, SummaryOf, KeyUsed,
      IdUsed, Apply;
    var t, h := Apply(s, e).store, s.shifts[k];
    ReversalEffect(s, e, n);
    var marked, row := s.ledger[n := s.ledger[n].(reversed := true)], Apply(s, e).reply.row;
    OneLessReceipt(s.ledger, n, e.tenant, h.openedAt, {None, Some(CASH)});
    OneLessReceipt(s.ledger, n, e.tenant, h.openedAt, {Some(TRANSFER)});
    OneMoreReceipt(marked, row, e.tenant, h.openedAt, {None, Some(CASH)});
    OneMoreReceipt(marked, row, e.tenant, h.openedAt, {Some(TRANSFER)});
    SummaryEffect(s, k);
    SummaryStays(s, t, k);
  }
}
