/** What each operation means to its caller: when it is accepted, what it leaves, what undoes it. */
module Outcomes {
  import opened Domain
  import opened Rounding
  import opened Ledger
  import opened Engine
  import opened Invariants
  import opened Books

  /** The request finds its key unused and its customer, and the database takes what it writes. */
  ghost predicate Proceeds(s: Store, e: Env)
    requires IsPosting(e.request)
  {
    && FindKey(s.ledger, e.tenant, e.request.key).None? && Owns(s, e.tenant, e.request.customer)
    && (Decide(e, s.customers[e.request.customer]).Write? ==>
          var d := Decide(e, s.customers[e.request.customer]);
          Accepts(s.ledger, d.rows, d.customer))
  }

  /** Only the balance of one customer changed. */
  ghost predicate OnlyBalance(s: Store, t: Store, c: Uuid, balance: int) {
    && c in s.customers && t.customers == s.customers[c := s.customers[c].(balance := balance)]
    && t.tenants == s.tenants && t.batches == s.batches && t.shifts == s.shifts
  }

  /** A debt is accepted exactly when the customer is active and stays within the limit. */
  lemma DebtPostsExactly(s: Store, e: Env)
    requires e.request.RegisterDebt? && Proceeds(s, e)
    ensures var q, o := e.request, ApplyPosting(s, e);
            var c := s.customers[q.customer];
            && (o.reply.Posted? <==> c.active && c.balance + q.amount <= c.limit)
            && (o.reply.Posted? ==>
                  && OnlyBalance(s, o.store, q.customer, c.balance + q.amount)
                  && o.reply.row.kind == DEBT && o.reply.row.amount == q.amount)
            && (!o.reply.Posted? ==> o == Outcome(s, Rejected(if c.active then OverLimit else Blocked)))
  {
  }

  /** A payment, of a blocked customer too, takes what is owed and no more; without a debt it is
      refused. */
  lemma PaymentPostsExactly(s: Store, e: Env)
    requires e.request.RegisterPayment? && Proceeds(s, e) && e.request.amount > 0
    ensures var q, o := e.request, ApplyPosting(s, e);
            var c := s.customers[q.customer];
            && (o.reply.Posted? <==> c.balance > 0)
            && (o.reply.Posted? ==>
                  && OnlyBalance(s, o.store, q.customer, Max(0, c.balance - q.amount))
                  && o.reply.row.kind == PAYMENT && o.reply.row.amount == Min(q.amount, c.balance)
                  && o.reply.row.paidBy == (if q.paidBy.Some? then q.paidBy else Some(CASH)))
            && (!o.reply.Posted? ==> o == Outcome(s, Rejected(NoDebt)))
  {
  }

  /** A mixed payment does to the balance what one payment of the total would. */
  lemma MixedPostsExactly(s: Store, e: Env)
    requires e.request.RegisterMixed? && Proceeds(s, e) && WellFormed(s, e)
    requires e.request.cash + e.request.transfer == e.request.total
    ensures var q, o := e.request, ApplyPosting(s, e);
            var c := s.customers[q.customer];
            && (o.reply.PostedPair? <==> c.balance > 0)
            && (o.reply.PostedPair? ==>
                  && OnlyBalance(s, o.store, q.customer, Max(0, c.balance - q.total))
                  && o.reply.cash.paidBy == Some(CASH) && o.reply.transfer.paidBy == Some(TRANSFER)
                  && o.reply.cash.group == o.reply.transfer.group == Some(q.groupId)
                  && o.reply.cash.amount + o.reply.transfer.amount == Min(q.total, c.balance)
                  && (q.total <= c.balance ==> o.reply.cash.amount == q.cash && o.reply.transfer.amount == q.transfer))
            && (!o.reply.PostedPair? ==> o == Outcome(s, Rejected(NoDebt)))
  {
    var q := e.request;
    if s.customers[q.customer].balance > 0 {
      ProrateSplitsExactly(q.total, q.cash, q.transfer, s.customers[q.customer].balance, q.drift);
    }
  }

  /** Forgiveness clears exactly the debt there is. */
  lemma ForgivenessPostsExactly(s: Store, e: Env)
    requires e.request.Forgive? && Proceeds(s, e)
    ensures var q, o := e.request, ApplyPosting(s, e);
            var c := s.customers[q.customer];
            && (o.reply.Posted? <==> c.balance > 0)
            && (o.reply.Posted? ==>
                  && OnlyBalance(s, o.store, q.customer, 0)
                  && o.reply.row.kind == FORGIVENESS && o.reply.row.amount == c.balance)
            && (!o.reply.Posted? ==> o == Outcome(s, Rejected(NoDebt)))
  {
  }

  /** When a posting is accepted, from what a caller knows beforehand. */
  predicate Acceptable(q: Request, c: Customer)
    requires IsPosting(q)
  {
    if q.RegisterDebt? then c.active && c.balance + q.amount <= c.limit else c.balance > 0
  }

  /** The balance an accepted posting leaves: debts add up, payments of whatever form take what is
      owed and no more, forgiveness clears it. */
  function Leaves(q: Request, c: Customer): int
    requires IsPosting(q)
  {
    if q.RegisterDebt? then c.balance + q.amount
    else if q.RegisterPayment? then Max(0, c.balance - q.amount)
    else if q.RegisterMixed? then Max(0, c.balance - q.total)
    else 0
  }

  /** A posting that reaches its decision is accepted exactly when it is acceptable, then leaves the
      balance it should, changes nothing else about customers, tenants, batches and shifts, and
      books the whole difference in its rows; refused, it changes nothing. */
  lemma PostsExactly(s: Store, e: Env)
    requires Inv(s) && WellFormed(s, e) && IsPosting(e.request) && Proceeds(s, e)
    requires e.request.RegisterMixed? ==> e.request.cash + e.request.transfer == e.request.total
    ensures var q, o := e.request, ApplyPosting(s, e);
            var c, t := s.customers[q.customer], o.store;
            && (!o.reply.Rejected? <==> Acceptable(q, c))
            && (o.reply.Rejected? ==> t == s)
            && (Acceptable(q, c) ==>
                  && OnlyBalance(s, t, q.customer, Leaves(q, c)) && s.ledger <= t.ledger
                  && Net(t.ledger, t.ledger, q.customer) - Net(s.ledger, s.ledger, q.customer)
                      == Leaves(q, c) - c.balance)
  {
    hide Inv, WellFormed, Proceeds, Net, ApplyPosting;
    AmountIsPositive(s, e);
    BooksTheDifference(s, e);
    match e.request {
      case RegisterDebt(_, _, _, _) => DebtPostsExactly(s, e);
      case RegisterPayment(_, _, _, _, _) => PaymentPostsExactly(s, e);
      case RegisterMixed(_, _, _, _, _, _, _, _, _, _) => MixedPostsExactly(s, e);
      case Forgive(_, _, _) => ForgivenessPostsExactly(s, e);
    }
  }

  lemma BooksTheDifference(s: Store, e: Env)
    requires Inv(s) && WellFormed(s, e) && IsPosting(e.request) && Proceeds(s, e)
    ensures var t, c := ApplyPosting(s, e).store, e.request.customer;
            && s.ledger <= t.ledger && c in t.customers
            && Net(t.ledger, t.ledger, c) - Net(s.ledger, s.ledger, c)
                == t.customers[c].balance - s.customers[c].balance
  {
    hide Inv, WellFormed, Net, Decide, Insertable;
    PostingBooks(s, e, e.request.customer);
  }

  lemma AmountIsPositive(s: Store, e: Env)
    requires WellFormed(s, e)
    ensures e.request.RegisterPayment? ==> e.request.amount > 0
  {
  }

  /** After a merge the primary owes what both owed, under the higher limit, and owns the history
      of both; the secondary is blocked, owes nothing and has no rows; no other column of either and
      nobody else is touched; and the primary is returned as it is stored. */
  lemma MergeOutcome(s: Store, e: Env)
    requires Inv(s) && MergeHappens(s, e)
    ensures var t, p, q := ApplyMerge(s, e).store, e.request.primary, e.request.secondary;
            && p in s.customers && q in s.customers
            && var a, b := s.customers[p], s.customers[q];
            && t.customers.Keys == s.customers.Keys
            && t.customers[p] == a.(balance := a.balance + b.balance,
                                    limit := if a.limit >= b.limit then a.limit else b.limit)
            && t.customers[q] == b.(balance := 0, active := false)
            && ApplyMerge(s, e).reply == CustomerSaved(p, t.customers[p])
            && (forall c | c in s.customers && c != p && c != q :: t.customers[c] == s.customers[c])
            && t.tenants == s.tenants && t.batches == s.batches && t.shifts == s.shifts
            && |t.ledger| == |s.ledger|
            && (forall i | 0 <= i < |s.ledger| ::
                  && t.ledger[i] == s.ledger[i].(customer := t.ledger[i].customer)
                  && t.ledger[i].customer == if s.ledger[i].customer in {p, q} then p else s.ledger[i].customer)
  {
    hide Linked, Tidy, Semaphore, Sealed;
    MergeShape(s, e);
  }

  // ─── What a reversal undoes ────────────────────────────────────────────

  predicate Reverses(s: Store, f: Env) {
    f.request.Reverse? && ApplyReverse(s, f).store != s
  }

  /** Reversing the last row of the ledger. */
  lemma LastRowReversed(t: Store, front: seq<Row>, row: Row, f: Env)
    requires Inv(t) && t.ledger == front + [row] && Reverses(t, f) && f.request.target == row.id
    ensures row.customer in t.customers
    ensures var c := t.customers[row.customer];
            ApplyReverse(t, f).store.customers == t.customers[row.customer := c.(balance := Undo(row, c.balance))]
  {
    hide Linked, Tidy, Owned, Solvent, Semaphore, Sealed, Insertable, Undo;
    var o := ReverseShape(t, f);
    SameRow(t.ledger, o, |front|);
  }

  /** Reversing a debt, a payment or a forgiveness right after it was posted restores the customers
      exactly. */
  lemma ReversalUndoesPosting(s: Store, e: Env, f: Env)
    requires Inv(s) && WellFormed(s, e) && IsPosting(e.request) && !e.request.RegisterMixed?
    requires ApplyPosting(s, e).store != s
    requires f.tenant == e.tenant && Reverses(ApplyPosting(s, e).store, f) && f.request.target == e.request.rowId
    ensures ApplyReverse(ApplyPosting(s, e).store, f).store.customers == s.customers
  {
    hide Inv, WellFormed, ApplyPosting, ApplyReverse;
    var t := ApplyPosting(s, e).store;
    PostingKeepsInv(s, e);
    var row := PostedRowIsLast(s, e);
    LastRowReversed(t, s.ledger, row, f);
    assert ApplyReverse(t, f).store.customers == s.customers;
  }

  lemma UniqueOfInv(s: Store)
    requires Inv(s)
    ensures Unique(s.ledger) && Solvent(s.customers)
  {
  }

  lemma PostedRowIsLast(s: Store, e: Env) returns (row: Row)
    requires Inv(s) && WellFormed(s, e) && IsPosting(e.request) && !e.request.RegisterMixed?
    requires ApplyPosting(s, e).store != s
    ensures var t, c := ApplyPosting(s, e).store, e.request.customer;
            && t.ledger == s.ledger + [row] && row.id == e.request.rowId && row.customer == c && row.tenant == e.tenant
            && c in s.customers && 0 <= s.customers[c].balance && row.kind != REVERSAL
            && t.customers == s.customers[c := s.customers[c].(balance :=
                 s.customers[c].balance + if IncreasesDebt(row.kind) then row.amount else -row.amount)]
            && 0 <= s.customers[c].balance + if IncreasesDebt(row.kind) then row.amount else -row.amount
  {
    hide Linked, Tidy, Semaphore, Sealed, Owned, Unique, Insertable;
    row := Decide(e, s.customers[e.request.customer]).rows[0];
  }

  /** Reversing a reversal restores the customers if and only if the amount is zero, or the original
      increased the debt and its reversal was not clamped: a reversal is always added back, so
      reversing the reversal of a payment charges the payment a second time. */
  lemma ReReversalRestoresExactly(s: Store, f: Env, g: Env)
    requires Inv(s) && Reverses(s, f) && Reverses(ApplyReverse(s, f).store, g)
    requires g.tenant == f.tenant && g.request.target == f.request.rowId
    ensures var original := FindTx(s.ledger, f.tenant, f.request.target);
            && original.Some? && original.value.customer in s.customers
            && (ApplyReverse(ApplyReverse(s, f).store, g).store.customers == s.customers <==>
                  || original.value.amount == 0
                  || (IncreasesDebt(original.value.kind)
                      && s.customers[original.value.customer].balance >= original.value.amount))
  {
    hide Inv;
    UniqueOfInv(s);
    var t := ApplyReverse(s, f).store;
    var o := ReverseShape(s, f);
    OriginalIsAt(s, f, o);
    ReverseKeepsInv(s, f);
    UniqueOfInv(t);
    var r := ReverseShape(t, g);
    SameRow(t.ledger, r, |s.ledger|);
    AmountsOfInv(s, o);
    var c := s.ledger[o].customer;
    var after := ApplyReverse(t, g).store.customers;
    assert after == s.customers[c := s.customers[c].(balance := after[c].balance)];
    assert after == s.customers <==> after[c].balance == s.customers[c].balance;
  }

  lemma AmountsOfInv(s: Store, i: nat)
    requires Inv(s) && i < |s.ledger|
    ensures 0 <= s.ledger[i].amount
  {
  }

  lemma OriginalIsAt(s: Store, f: Env, o: nat)
    requires Unique(s.ledger) && f.request.Reverse? && o < |s.ledger|
    requires s.ledger[o].tenant == f.tenant && s.ledger[o].id == f.request.target
    ensures FindTx(s.ledger, f.tenant, f.request.target) == Some(s.ledger[o])
  {
    var i := AtIndex(s.ledger, FindTx(s.ledger, f.tenant, f.request.target).value);
    SameRow(s.ledger, i, o);
  }
}
