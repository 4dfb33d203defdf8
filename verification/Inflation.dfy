/** The inflation batch as its users see it: who pays what, and that the visiting order,
    which the SELECT leaves open, does not matter. */
module Inflation {
  import opened Domain
  import opened Rounding
  import opened Ledger
  import opened Engine
  import opened Invariants
  import opened Books

  /** The batch runs and commits: its key is new and the database accepts its rows. */
  predicate BatchHappens(s: Store, e: Env) {
    e.request.Inflate? && (e.tenant, e.request.key) !in s.batches && ApplyInflate(s, e).reply.BatchApplied?
  }

  function SumOfAmounts(rows: seq<Row>): int {
    if rows == [] then 0 else SumOfAmounts(rows[..|rows| - 1]) + rows[|rows| - 1].amount
  }

  /** Sum of new minus old balances over the visited customers. */
  function BalanceGrowth(before: map<Uuid, Customer>, after: map<Uuid, Customer>, slots: seq<Slot>): int {
    if slots == [] then 0
    else
      var c := slots[|slots| - 1].customer;
      BalanceGrowth(before, after, slots[..|slots| - 1])
      + if c in before && c in after then after[c].balance - before[c].balance else 0
  }

  /** The percentage of all debts, unrounded and exact. */
  function ExactTotal(customers: map<Uuid, Customer>, rate: Rate, slots: seq<Slot>): real {
    if slots == [] then 0.0
    else
      var c := slots[|slots| - 1].customer;
      ExactTotal(customers, rate, slots[..|slots| - 1])
      + if c in customers && customers[c].balance > 0 then ExactPart(customers[c].balance, rate) else 0.0
  }

  lemma {:induction false} TotalIsSumOfRows(e: Env, customers: map<Uuid, Customer>, rate: Rate, slots: seq<Slot>)
    ensures SumOfAmounts(InflationRows(e, customers, rate, slots)) == InflationTotal(customers, rate, slots)
  {
    if slots != [] {
      var n := |slots| - 1;
      TotalIsSumOfRows(e, customers, rate, slots[..n]);
      var rows := InflationRows(e, customers, rate, slots);
      var before := InflationRows(e, customers, rate, slots[..n]);
      if |rows| > |before| {
        assert rows[..|rows| - 1] == before;
      }
    }
  }

  lemma {:induction false} TotalIsGrowth(customers: map<Uuid, Customer>, tenant: Uuid, rate: Rate, slots: seq<Slot>)
    requires forall i | 0 <= i < |slots| ::
      slots[i].customer in customers && customers[slots[i].customer].tenant == tenant
    ensures InflationTotal(customers, rate, slots)
         == BalanceGrowth(customers, InflatedCustomers(customers, tenant, rate), slots)
  {
    if slots != [] {
      TotalIsGrowth(customers, tenant, rate, slots[..|slots| - 1]);
    }
  }

  /** Off by at most half a cent and the product's error for each of `n` debtors. */
  predicate Near(difference: real, n: nat, slack: real) {
    -(n as real * (0.5 + slack)) <= difference <= n as real * (0.5 + slack)
  }

  lemma OneMoreDebtor(difference: real, n: nat, slack: real, own: real)
    requires Near(difference, n, slack) && -0.5 - slack <= own <= 0.5 + slack
    ensures Near(difference + own, n + 1, slack)
  {
    var x := 0.5 + slack;
    assert (n as real + 1.0) * x == n as real * x + x;
  }

  lemma {:induction false} TotalIsNearExact(customers: map<Uuid, Customer>, rate: Rate, slack: real, slots: seq<Slot>)
    requires rate.percentage > 0.0 && Dependable(rate) && Within(rate, slack) && Solvent(customers)
    ensures var difference := InflationTotal(customers, rate, slots) as real - ExactTotal(customers, rate, slots);
            Near(difference, DebtorCount(customers, slots), slack)
  {
    if slots != [] {
      hide Near, Surcharge, ExactPart, Dependable, Within;
      var n, c := |slots| - 1, slots[|slots| - 1].customer;
      var before := InflationTotal(customers, rate, slots[..n]) as real - ExactTotal(customers, rate, slots[..n]);
      TotalIsNearExact(customers, rate, slack, slots[..n]);
      if c in customers && customers[c].balance > 0 {
        var b := customers[c].balance;
        SurchargeIsNearest(b, rate, slack);
        OneMoreDebtor(before, DebtorCount(customers, slots[..n]), slack,
            Surcharge(b, rate) as real - ExactPart(b, rate));
      } else {
        NoSurcharge(customers, slots[n], rate);
      }
    }
  }

  lemma NoSurcharge(customers: map<Uuid, Customer>, slot: Slot, rate: Rate)
    requires slot.customer in customers ==> customers[slot.customer].balance <= 0
    ensures SlotSurcharge(customers, slot, rate) == 0
  {
  }

  /** Who pays what: each debtor of the tenant owes the rounded percentage more, nobody else's
      row changes, and the reported total is at once the growth of all balances, the sum of the
      inserted rows, and within half a cent plus the product's error per debtor of the exact
      percentage. */
  lemma BatchCharges(s: Store, e: Env, slack: real)
    requires Inv(s) && WellFormed(s, e) && BatchHappens(s, e) && Within(e.request.rate, slack)
    ensures var t, q, total := ApplyInflate(s, e).store, e.request, ApplyInflate(s, e).reply.total;
            var rows := t.ledger[|s.ledger|..];
            && t.customers.Keys == s.customers.Keys
            && (forall c | c in s.customers ::
                  t.customers[c] ==
                  if s.customers[c].tenant == e.tenant && s.customers[c].balance > 0 then
                    var b := s.customers[c].balance;
                    s.customers[c].(balance := b + JsRound(Computed(b, q.rate)))
                  else s.customers[c])
            && total == BalanceGrowth(s.customers, t.customers, q.slots)
            && total == SumOfAmounts(rows)
            && Near(total as real - ExactTotal(s.customers, q.rate, q.slots), ApplyInflate(s, e).reply.affected, slack)
  {
    hide Insertable, Linked, Tidy, Sealed, Semaphore, Unique, Computed, Near;
    var q := e.request;
    TotalIsSumOfRows(e, s.customers, q.rate, q.slots);
    TotalIsGrowth(s.customers, e.tenant, q.rate, q.slots);
    TotalIsNearExact(s.customers, q.rate, slack, q.slots);
    assert ApplyInflate(s, e).store.ledger[|s.ledger|..] == InflationRows(e, s.customers, q.rate, q.slots);
    forall c | c in s.customers && s.customers[c].balance > 0
      ensures Surcharge(s.customers[c].balance, q.rate) == JsRound(Computed(s.customers[c].balance, q.rate))
    {
      SurchargeIsNearest(s.customers[c].balance, q.rate, slack);
    }
  }

  // ─── In terms of the tables alone ──────────────────────────────────────

  /** What the visited customers owe together. */
  function Owed(customers: map<Uuid, Customer>, slots: seq<Slot>): int {
    if slots == [] then 0
    else
      var c := slots[|slots| - 1].customer;
      Owed(customers, slots[..|slots| - 1])
      + if c in customers && 0 < customers[c].balance then customers[c].balance else 0
  }

  /** Off by at most fifty hundredths of a cent, and the product's error, for each of `n` debtors. */
  predicate WithinHundredths(difference: real, n: nat, slack: real) {
    -(n as real * (50.0 + 100.0 * slack)) <= difference <= n as real * (50.0 + 100.0 * slack)
  }

  lemma OneMoreCharge(difference: real, n: nat, slack: real, own: real)
    requires WithinHundredths(difference, n, slack) && -50.0 - 100.0 * slack <= own <= 50.0 + 100.0 * slack
    ensures WithinHundredths(difference + own, n + 1, slack)
  {
    var x := 50.0 + 100.0 * slack;
    assert (n as real + 1.0) * x == n as real * x + x;
  }

  /** By how many hundredths of a cent a total exceeds the percentage of a sum owed. */
  function Excess(total: int, owed: int, rate: Rate): real {
    100.0 * total as real - rate.percentage * owed as real
  }

  lemma ExcessGrows(total: int, owed: int, rate: Rate, more: int, b: int)
    ensures Excess(total + more, owed + b, rate)
         == Excess(total, owed, rate) + (100.0 * more as real - b as real * rate.percentage)
  {
    assert rate.percentage * (owed + b) as real == rate.percentage * owed as real + b as real * rate.percentage;
  }

  lemma {:induction false} TotalIsPercentage(customers: map<Uuid, Customer>, rate: Rate, slack: real, slots: seq<Slot>)
    requires rate.percentage > 0.0 && Dependable(rate) && Within(rate, slack)
    requires forall c | c in customers :: customers[c].balance <= 2147483647
    ensures WithinHundredths(Excess(InflationTotal(customers, rate, slots), Owed(customers, slots), rate),
                             DebtorCount(customers, slots), slack)
  {
    if slots == [] {
      assert Excess(0, 0, rate) == 0.0;
    } else {
      hide WithinHundredths, Excess, Surcharge, Dependable, Within;
      var n, c := |slots| - 1, slots[|slots| - 1].customer;
      var total, owed := InflationTotal(customers, rate, slots[..n]), Owed(customers, slots[..n]);
      TotalIsPercentage(customers, rate, slack, slots[..n]);
      if c in customers && customers[c].balance > 0 {
        var b := customers[c].balance;
        SurchargeIsPercentage(b, rate, slack);
        ExcessGrows(total, owed, rate, Surcharge(b, rate), b);
        OneMoreCharge(Excess(total, owed, rate), DebtorCount(customers, slots[..n]), slack,
            100.0 * Surcharge(b, rate) as real - b as real * rate.percentage);
      } else {
        NoSurcharge(customers, slots[n], rate);
      }
    }
  }

  /** The new balance `b` of a debtor who owed `a`. */
  predicate ChargedPercentage(a: int, b: int, rate: Rate, slack: real) {
    && a <= b
    && -50.0 - 100.0 * slack <= 100.0 * (b - a) as real - a as real * rate.percentage <= 50.0 + 100.0 * slack
    && (b - a) as real - 0.5 <= a as real * rate.percentage / 100.0 + rate.error(a) < (b - a) as real + 0.5
  }

  /** Each debtor of the tenant owes the percentage more, to half a cent and the error of the product;
      nobody else's row changes; the reported total is the percentage of all debts together, to as
      much per debtor; and the batch is recorded under its key with the figures it replies. */
  lemma BatchEffect(s: Store, e: Env, slack: real)
    requires Inv(s) && WellFormed(s, e) && BatchHappens(s, e) && Within(e.request.rate, slack)
    ensures var q, o := e.request, Apply(s, e);
            var t, total, affected := o.store, o.reply.total, o.reply.affected;
            && t.customers.Keys == s.customers.Keys
            && (forall c | c in s.customers ::
                  var a, b := s.customers[c], t.customers[c];
                  if a.tenant == e.tenant && 0 < a.balance then
                    b == a.(balance := b.balance) && ChargedPercentage(a.balance, b.balance, q.rate, slack)
                  else b == a)
            && WithinHundredths(Excess(total, Owed(s.customers, q.slots), q.rate), affected, slack)
            && t.batches == s.batches[(e.tenant, q.key) := Batch(affected, total)]
            && t.tenants == s.tenants && t.shifts == s.shifts
  {
    hide Insertable, Linked, Tidy, Sealed, Semaphore, Unique, WithinHundredths, Excess, Surcharge, Enumerates,
      InflationRows;
    var q := e.request;
    TotalIsPercentage(s.customers, q.rate, slack, q.slots);
    forall c | c in s.customers && s.customers[c].tenant == e.tenant && 0 < s.customers[c].balance
      ensures var a := s.customers[c].balance; ChargedPercentage(a, a + Surcharge(a, q.rate), q.rate, slack)
    {
      SurchargeIsPercentage(s.customers[c].balance, q.rate, slack);
    }
    forall c | c in s.customers && s.customers[c].balance <= 0 ensures Surcharge(s.customers[c].balance, q.rate) == 0 {
      NobodyOwingNothing(s.customers[c].balance, q.rate);
    }
  }

  lemma NobodyOwingNothing(balance: int, rate: Rate)
    requires balance <= 0
    ensures Surcharge(balance, rate) == 0
  {
  }

  /** The row that tells the growth of a customer's balance. */
  function ChargeRow(e: Env, slot: Slot, growth: int): Row {
    Row(slot.rowId, e.tenant, slot.customer, INFLATION_ADJUSTMENT, growth, None, None, slot.rowKey, None, false, None,
        e.now)
  }

  function Growth(s: Store, t: Store, c: Uuid): int {
    if c in s.customers && c in t.customers then t.customers[c].balance - s.customers[c].balance else 0
  }

  lemma {:induction false} RowsTellCharges(e: Env, customers: map<Uuid, Customer>, rate: Rate, slots: seq<Slot>)
    ensures forall i | 0 <= i < |slots| && SlotSurcharge(customers, slots[i], rate) > 0 ::
      ChargeRow(e, slots[i], SlotSurcharge(customers, slots[i], rate)) in InflationRows(e, customers, rate, slots)
    ensures forall r | r in InflationRows(e, customers, rate, slots) ::
      exists i :: 0 <= i < |slots| && SlotSurcharge(customers, slots[i], rate) > 0
                  && r == ChargeRow(e, slots[i], SlotSurcharge(customers, slots[i], rate))
  {
    if slots != [] {
      hide SlotSurcharge;
      var n := |slots| - 1;
      var rows, before := InflationRows(e, customers, rate, slots), InflationRows(e, customers, rate, slots[..n]);
      RowsTellCharges(e, customers, rate, slots[..n]);
      forall i | 0 <= i < |slots| && SlotSurcharge(customers, slots[i], rate) > 0
        ensures ChargeRow(e, slots[i], SlotSurcharge(customers, slots[i], rate)) in rows
      {
        if i < n {
          assert slots[..n][i] == slots[i];
        } else {
          assert rows[|rows| - 1] == ChargeRow(e, slots[n], SlotSurcharge(customers, slots[n], rate));
        }
      }
      forall r | r in rows
        ensures exists i :: 0 <= i < |slots| && SlotSurcharge(customers, slots[i], rate) > 0
                            && r == ChargeRow(e, slots[i], SlotSurcharge(customers, slots[i], rate))
      {
        if r in before {
          var i :| 0 <= i < n && SlotSurcharge(customers, slots[..n][i], rate) > 0
                   && r == ChargeRow(e, slots[..n][i], SlotSurcharge(customers, slots[..n][i], rate));
          assert slots[..n][i] == slots[i];
        } else {
          assert r == ChargeRow(e, slots[n], SlotSurcharge(customers, slots[n], rate));
        }
      }
    }
  }

  /** The batch inserts one row for each customer whose balance it raises, of exactly the raise, under
      the id and key drawn for it, and no other row. */
  lemma BatchRowsEffect(s: Store, e: Env)
    requires WellFormed(s, e) && BatchHappens(s, e)
    ensures var q, t := e.request, Apply(s, e).store;
            && s.ledger <= t.ledger && Unique(t.ledger[|s.ledger|..])
            && (forall i | 0 <= i < |q.slots| && Growth(s, t, q.slots[i].customer) > 0 ::
                  ChargeRow(e, q.slots[i], Growth(s, t, q.slots[i].customer)) in t.ledger[|s.ledger|..])
            && (forall r | r in t.ledger[|s.ledger|..] ::
                  exists i :: 0 <= i < |q.slots| && Growth(s, t, q.slots[i].customer) > 0
                              && r == ChargeRow(e, q.slots[i], Growth(s, t, q.slots[i].customer)))
  {
    hide Surcharge, Unique, Distinct, Visits, Dependable;
    var q, t := e.request, Apply(s, e).store;
    RowsTellCharges(e, s.customers, q.rate, q.slots);
    assert t.ledger[|s.ledger|..] == InflationRows(e, s.customers, q.rate, q.slots);
    forall i | 0 <= i < |q.slots|
      ensures Growth(s, t, q.slots[i].customer) == SlotSurcharge(s.customers, q.slots[i], q.rate)
    {
      assert Owns(s, e.tenant, q.slots[i].customer);
    }
  }

  /** Ids and keys drawn for two slots differ. */
  predicate SlotsApart(a: Slot, b: Slot) {
    a.rowId != b.rowId && a.rowKey != b.rowKey
  }

  lemma {:induction false} RowsStayApart(e: Env, customers: map<Uuid, Customer>, rate: Rate, slots: seq<Slot>)
    requires forall i, j | 0 <= i < j < |slots| :: SlotsApart(slots[i], slots[j])
    ensures Unique(InflationRows(e, customers, rate, slots))
  {
    if slots != [] {
      hide SlotSurcharge;
      var n := |slots| - 1;
      var rows, before := InflationRows(e, customers, rate, slots), InflationRows(e, customers, rate, slots[..n]);
      RowsStayApart(e, customers, rate, slots[..n]);
      RowsTellCharges(e, customers, rate, slots[..n]);
      forall k | 0 <= k < |before| && |rows| > |before| ensures !Clash(rows[k], rows[|before|]) {
        assert before[k] in before;
        var i :| 0 <= i < n && before[k] == ChargeRow(e, slots[..n][i], SlotSurcharge(customers, slots[..n][i], rate));
        assert SlotsApart(slots[i], slots[n]);
      }
    }
  }

  /** A batch under a new key goes through when the ids and keys drawn for its rows are new and
      differ, and every balance has room for the percentage. */
  lemma BatchGoesThrough(s: Store, e: Env, slack: real)
    requires e.request.Inflate? && WellFormed(s, e) && Within(e.request.rate, slack)
    requires (e.tenant, e.request.key) !in s.batches
    requires var q := e.request;
             && (forall i, j | 0 <= i < j < |q.slots| :: SlotsApart(q.slots[i], q.slots[j]))
             && (forall i, k | 0 <= i < |q.slots| && 0 <= k < |s.ledger| ::
                   s.ledger[k].id != q.slots[i].rowId
                   && !(s.ledger[k].tenant == e.tenant && s.ledger[k].key == q.slots[i].rowKey))
             && (forall c | c in s.customers :: 0 <= s.customers[c].balance <= 2147483647)
             && (forall c | c in s.customers && s.customers[c].tenant == e.tenant && 0 < s.customers[c].balance ::
                   HasRoom(s.customers[c].balance, q.rate, slack))
    ensures Apply(s, e).reply.BatchApplied?
  {
    hide Surcharge, Dependable, Within, HasRoom, Visits;
    var q := e.request;
    var rows := InflationRows(e, s.customers, q.rate, q.slots);
    RowsStayApart(e, s.customers, q.rate, q.slots);
    RowsTellCharges(e, s.customers, q.rate, q.slots);
    forall c | c in s.customers && s.customers[c].tenant == e.tenant
      ensures Int4(s.customers[c].balance + Surcharge(s.customers[c].balance, q.rate))
      ensures Int4(Surcharge(s.customers[c].balance, q.rate))
    {
      ChargeFits(s.customers[c].balance, q.rate, slack);
    }
    forall k | 0 <= k < |rows|
      ensures Int4(rows[k].amount) && forall i | 0 <= i < |s.ledger| :: !Clash(s.ledger[i], rows[k])
    {
      assert rows[k] in rows;
      var i :| 0 <= i < |q.slots|
               && rows[k] == ChargeRow(e, q.slots[i], SlotSurcharge(s.customers, q.slots[i], q.rate));
      assert Owns(s, e.tenant, q.slots[i].customer);
    }
  }

  /** The balance and its percentage fit the column, however the product errs. */
  predicate HasRoom(balance: int, rate: Rate, slack: real) {
    100.0 * balance as real + balance as real * rate.percentage + 50.0 + 100.0 * slack <= 214748364700.0
  }

  lemma ChargeFits(balance: int, rate: Rate, slack: real)
    requires 0 <= balance <= 2147483647 && rate.percentage > 0.0 && Dependable(rate) && Within(rate, slack)
    requires 0 < balance ==> HasRoom(balance, rate, slack)
    ensures Int4(balance + Surcharge(balance, rate)) && Int4(Surcharge(balance, rate))
  {
    hide Surcharge, Dependable, Within;
    if balance > 0 {
      SurchargeIsPercentage(balance, rate, slack);
    } else {
      NobodyOwingNothing(balance, rate);
    }
  }

  predicate Owes(customers: map<Uuid, Customer>, c: Uuid) {
    c in customers && customers[c].balance > 0
  }

  function DebtorsAmong(customers: map<Uuid, Customer>, slots: seq<Slot>): set<Uuid> {
    if slots == [] then {}
    else
      var last := slots[|slots| - 1].customer;
      DebtorsAmong(customers, slots[..|slots| - 1]) + if Owes(customers, last) then {last} else {}
  }

  lemma {:induction false} DebtorsAmongMembers(customers: map<Uuid, Customer>, slots: seq<Slot>, c: Uuid)
    ensures c in DebtorsAmong(customers, slots) <==> Visits(slots, c) && Owes(customers, c)
  {
    if slots != [] {
      var n := |slots| - 1;
      DebtorsAmongMembers(customers, slots[..n], c);
      if Visits(slots, c) && slots[n].customer != c {
        var i :| 0 <= i < |slots| && slots[i].customer == c;
        assert slots[..n][i].customer == c;
      }
      if Visits(slots[..n], c) {
        var i :| 0 <= i < n && slots[..n][i].customer == c;
        assert slots[i].customer == c;
      }
      assert slots[n].customer == c ==> Visits(slots, c);
    }
  }

  lemma {:induction false} CountIsCardinality(customers: map<Uuid, Customer>, slots: seq<Slot>)
    requires Distinct(slots)
    ensures DebtorCount(customers, slots) == |DebtorsAmong(customers, slots)|
  {
    if slots != [] {
      var n := |slots| - 1;
      CountIsCardinality(customers, slots[..n]);
      DebtorsAmongMembers(customers, slots[..n], slots[n].customer);
      assert !Visits(slots[..n], slots[n].customer);
    }
  }

  /** The reported count is the number of the tenant's debtors, those with a zero surcharge included. */
  lemma BatchCountsDebtors(s: Store, e: Env)
    requires WellFormed(s, e) && BatchHappens(s, e)
    ensures ApplyInflate(s, e).reply.affected
         == |set c | c in s.customers && Owns(s, e.tenant, c) && s.customers[c].balance > 0|
  {
    var slots := e.request.slots;
    CountIsCardinality(s.customers, slots);
    var owing := set c | c in s.customers && Owns(s, e.tenant, c) && s.customers[c].balance > 0;
    forall c ensures c in owing <==> c in DebtorsAmong(s.customers, slots) {
      DebtorsAmongMembers(s.customers, slots, c);
      assert Visits(slots, c) <==> Owns(s, e.tenant, c);
    }
    assert owing == DebtorsAmong(s.customers, slots);
  }

  /** No debtor overtakes another. */
  lemma BatchKeepsRanking(s: Store, e: Env, c: Uuid, d: Uuid)
    requires Inv(s) && WellFormed(s, e) && BatchHappens(s, e)
    requires Owns(s, e.tenant, c) && Owns(s, e.tenant, d) && s.customers[c].balance <= s.customers[d].balance
    ensures var t := ApplyInflate(s, e).store; t.customers[c].balance <= t.customers[d].balance
  {
    SurchargePreservesOrder(s.customers[c].balance, s.customers[d].balance, e.request.rate);
  }

  // ─── Order independence ────────────────────────────────────────────────

  lemma {:induction false} RemoveFromTotal(customers: map<Uuid, Customer>, rate: Rate, slots: seq<Slot>, j: nat)
    requires j < |slots|
    ensures InflationTotal(customers, rate, slots)
         == InflationTotal(customers, rate, slots[..j] + slots[j + 1..]) + SlotSurcharge(customers, slots[j], rate)
  {
    hide SlotSurcharge;
    var n := |slots| - 1;
    var rest := slots[..j] + slots[j + 1..];
    if j == n {
      assert rest == slots[..n];
    } else {
      RemoveFromTotal(customers, rate, slots[..n], j);
      assert rest[..|rest| - 1] == slots[..n][..j] + slots[..n][j + 1..];
    }
  }

  lemma {:induction false} RemoveFromCount(customers: map<Uuid, Customer>, slots: seq<Slot>, j: nat)
    requires j < |slots|
    ensures DebtorCount(customers, slots)
         == DebtorCount(customers, slots[..j] + slots[j + 1..]) + DebtorCount(customers, [slots[j]])
  {
    var n := |slots| - 1;
    var rest := slots[..j] + slots[j + 1..];
    assert [slots[j]][..0] == [];
    if j == n {
      assert rest == slots[..n];
    } else {
      RemoveFromCount(customers, slots[..n], j);
      assert rest[..|rest| - 1] == slots[..n][..j] + slots[..n][j + 1..];
    }
  }

  lemma FirstIsVisited(slots: seq<Slot>)
    ensures slots != [] ==> Visits(slots, slots[0].customer)
  {
  }

  /** Two visiting orders of the same customers give the same total and count. */
  lemma {:induction false} OrderDoesNotCount(customers: map<Uuid, Customer>, rate: Rate, a: seq<Slot>, b: seq<Slot>)
    requires Distinct(a) && Distinct(b)
    requires forall c :: Visits(a, c) <==> Visits(b, c)
    ensures InflationTotal(customers, rate, a) == InflationTotal(customers, rate, b)
    ensures DebtorCount(customers, a) == DebtorCount(customers, b)
  {
    if a == [] {
      FirstIsVisited(b);
    } else {
      var n := |a| - 1;
      assert Visits(a, a[n].customer);
      var j :| 0 <= j < |b| && b[j].customer == a[n].customer;
      var rest := b[..j] + b[j + 1..];
      RemoveFromTotal(customers, rate, b, j);
      RemoveFromTotal(customers, rate, a, n);
      RemoveFromCount(customers, b, j);
      RemoveFromCount(customers, a, n);
      assert a[..n] + a[n + 1..] == a[..n];
      hide SlotSurcharge;
      forall c ensures Visits(a[..n], c) <==> Visits(rest, c) {
        SameVisitsWithout(a, n, b, j, c);
      }
      OrderDoesNotCount(customers, rate, a[..n], rest);
      assert [a[n]][..0] == [] == [b[j]][..0];
    }
  }

  lemma SameVisitsWithout(a: seq<Slot>, n: nat, b: seq<Slot>, j: nat, c: Uuid)
    requires Distinct(a) && Distinct(b) && n == |a| - 1 && j < |b| && b[j].customer == a[n].customer
    requires Visits(a, c) <==> Visits(b, c)
    ensures Visits(a[..n], c) <==> Visits(b[..j] + b[j + 1..], c)
    ensures Distinct(b[..j] + b[j + 1..])
  {
    var rest := b[..j] + b[j + 1..];
    if Visits(a[..n], c) {
      var i :| 0 <= i < n && a[..n][i].customer == c;
      assert a[i].customer == c;
      assert Visits(a, c);
      var k :| 0 <= k < |b| && b[k].customer == c;
      assert k != j;
      assert rest[if k < j then k else k - 1] == b[k];
    }
    if Visits(rest, c) {
      var k :| 0 <= k < |rest| && rest[k].customer == c;
      var k' := if k < j then k else k + 1;
      assert b[k'].customer == c;
      assert Visits(b, c);
      var i :| 0 <= i < |a| && a[i].customer == c;
      assert i != n;
      assert a[..n][i].customer == c;
    }
  }

  /** Whatever order the database returns the customers in, the batch leaves the same
      customers, reports the same figures and charges each customer the same. */
  lemma BatchOrderIrrelevant(s: Store, e: Env, f: Env)
    requires Inv(s) && WellFormed(s, e) && WellFormed(s, f) && BatchHappens(s, e) && BatchHappens(s, f)
    requires f.tenant == e.tenant && f.request.rate == e.request.rate
    ensures ApplyInflate(s, e).store.customers == ApplyInflate(s, f).store.customers
    ensures ApplyInflate(s, e).reply == ApplyInflate(s, f).reply
    ensures forall c | c in s.customers ::
      var t, u := ApplyInflate(s, e).store, ApplyInflate(s, f).store;
      Net(t.ledger, t.ledger, c) == Net(u.ledger, u.ledger, c)
  {
    var a, b := e.request.slots, f.request.slots;
    forall c ensures Visits(a, c) <==> Visits(b, c) {
      assert Visits(a, c) <==> Owns(s, e.tenant, c);
      assert Visits(b, c) <==> Owns(s, f.tenant, c);
    }
    OrderDoesNotCount(s.customers, e.request.rate, a, b);
    forall c | c in s.customers
      ensures var t, u := ApplyInflate(s, e).store, ApplyInflate(s, f).store;
              Net(t.ledger, t.ledger, c) == Net(u.ledger, u.ledger, c)
    {
      InflateBooks(s, e, c);
      InflateBooks(s, f, c);
    }
  }
}
