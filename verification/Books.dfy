/** Conservation: the cached balances against the signed sums of the ledger, over any run. */
module Books {
  import opened Domain
  import opened Rounding
  import opened Ledger
  import opened Till
  import opened Engine
  import opened Invariants

  // ─── The ledger is append-only ─────────────────────────────────────────

  lemma ReverseGrowsLedger(s: Store, e: Env)
    requires Inv(s) && e.request.Reverse?
    ensures Grows(s.ledger, ApplyReverse(s, e).store.ledger)
  {
    if ApplyReverse(s, e).store != s {
      var o := ReverseShape(s, e);
    }
  }

  lemma UpdateGrowsLedger(s: Store, e: Env)
    requires e.request.Merge? || e.request.CloseTurn?
    ensures Grows(s.ledger, Apply(s, e).store.ledger)
  {
  }

  lemma AppendGrowsLedger(s: Store, e: Env)
    requires IsPosting(e.request) || e.request.Inflate?
    ensures Grows(s.ledger, Apply(s, e).store.ledger)
  {
    assert IsPosting(e.request) ==> s.ledger <= ApplyPosting(s, e).store.ledger;
    assert e.request.Inflate? ==> s.ledger <= ApplyInflate(s, e).store.ledger;
  }

  lemma StepGrowsLedger(s: Store, e: Env)
    requires Inv(s)
    ensures Grows(s.ledger, Apply(s, e).store.ledger)
  {
    hide Inv;
    match e.request
    case Reverse(_, _, _) => ReverseGrowsLedger(s, e);
    case Merge(_, _) => UpdateGrowsLedger(s, e);
    case CloseTurn(_, _) => UpdateGrowsLedger(s, e);
    case CreateCustomer(_, _, _, _, _) =>
    case SetLimit(_, _) =>
    case ToggleBlock(_) =>
    case OpenTurn(_, _) =>
    case _ => AppendGrowsLedger(s, e);
  }

  /** Rows are never deleted or rewritten: over any run each row only changes owner by a merge,
      becomes reversed for ever, or is frozen for ever into one shift. */
  lemma {:induction false} RunGrowsLedger(s: Store, es: seq<Env>)
    requires Inv(s) && WellFormedRun(s, es)
    ensures Grows(s.ledger, Run(s, es).ledger)
  {
    if es != [] {
      var n := |es| - 1;
      RunGrowsLedger(s, es[..n]);
      RunKeepsInv(s, es[..n]);
      StepGrowsLedger(Run(s, es[..n]), es[n]);
      GrowsTransitive(s.ledger, Run(s, es[..n]).ledger, Run(s, es).ledger);
    }
  }

  // ─── Signed sums under the four ledger changes ─────────────────────────

  /** Rows that keep their owner keep their contribution as the ledger grows. */
  lemma ContributionStable(l: seq<Row>, m: seq<Row>, i: nat, c: Uuid)
    requires Linked(l) && Unique(m) && Grows(l, m) && i < |l| && m[i].customer == l[i].customer
    ensures Contribution(m[i], m, c) == Contribution(l[i], l, c)
  {
    if l[i].kind == REVERSAL {
      assert HasOriginal(l, i);
    }
    assert Evolves(l[i], m[i]);
    SignedStable(l[i], m[i], l, m);
  }

  lemma NetOfPrefix(l: seq<Row>, m: seq<Row>, c: Uuid)
    requires Linked(l) && Unique(m) && Grows(l, m)
    requires forall i | 0 <= i < |l| :: m[i].customer == l[i].customer
    ensures Net(m[..|l|], m, c) == Net(l, l, c)
  {
    forall i | 0 <= i < |l| ensures Contribution(m[i], m, c) == Contribution(l[i], l, c) {
      ContributionStable(l, m, i, c);
    }
    NetPointwise(l, l, m[..|l|], m, c);
  }

  /** Plain rows appended to a ledger add their own sum. */
  lemma NetOfAppend(l: seq<Row>, rows: seq<Row>, c: Uuid)
    requires Linked(l) && Unique(l + rows)
    requires forall i | 0 <= i < |rows| :: Plain(rows[i])
    ensures Net(l + rows, l + rows, c) == Net(l, l, c) + Net(rows, rows, c)
  {
    var m := l + rows;
    NetAppend(l, rows, m, c);
    assert m[..|l|] == l;
    NetOfPrefix(l, m, c);
    NetPointwise(rows, m, rows, rows, c);
  }

  lemma NetOfReversal(l: seq<Row>, row: Row, o: nat, c: Uuid)
    requires Linked(l) && o < |l|
    requires Unique(l[o := l[o].(reversed := true)] + [row])
    requires Undoes(row, l[o].(reversed := true))
    ensures var m := l[o := l[o].(reversed := true)] + [row];
            Net(m, m, c) == Net(l, l, c)
              + if c != l[o].customer then 0 else if IncreasesDebt(l[o].kind) then -row.amount else row.amount
  {
    var marked := l[o := l[o].(reversed := true)];
    var m := marked + [row];
    NetAppend(marked, [row], m, c);
    assert m[..|l|] == marked;
    NetOfPrefix(l, m, c);
    FindIdUnique(m, o);
    assert Net([row], m, c) == Contribution(row, m, c) by {
      assert [row][..0] == [];
    }
  }

  lemma NetOfUpdate(l: seq<Row>, m: seq<Row>, c: Uuid)
    requires Linked(l) && Unique(m) && Grows(l, m) && |l| == |m|
    requires forall i | 0 <= i < |l| :: m[i].customer == l[i].customer
    ensures Net(m, m, c) == Net(l, l, c)
  {
    assert m[..|l|] == m;
    NetOfPrefix(l, m, c);
  }

  /** Moving rows from q to p joins their sums. */
  lemma NetOfMove(l: seq<Row>, tenant: Uuid, q: Uuid, p: Uuid, c: Uuid)
    requires Linked(l) && Unique(l) && p != q
    requires forall i | 0 <= i < |l| && l[i].customer == q :: l[i].tenant == tenant
    requires Unique(MoveRows(l, tenant, q, p))
    ensures var m := MoveRows(l, tenant, q, p);
            Net(m, m, c) == if c == p then Net(l, l, p) + Net(l, l, q) else if c == q then 0 else Net(l, l, c)
  {
    var m := MoveRows(l, tenant, q, p);
    forall i | 0 <= i < |l| ensures Signed(m[i], m) == Signed(l[i], l) {
      if l[i].kind == REVERSAL {
        assert HasOriginal(l, i);
      }
      SignedStable(l[i], m[i], l, m);
    }
    if c == p {
      NetJoin(l, l, m, m, p, q);
    } else if c == q {
      NetZero(m, m, q);
    } else {
      NetPointwise(l, l, m, m, c);
    }
  }

  /** What a batch adds to the signed sum of one customer. */
  lemma {:induction false} NetOfBatch(e: Env, customers: map<Uuid, Customer>, rate: Rate, slots: seq<Slot>,
                                      l: seq<Row>, c: Uuid)
    requires Distinct(slots)
    ensures Net(InflationRows(e, customers, rate, slots), l, c)
         == if Visits(slots, c) then SlotSurcharge(customers, Slot(c, 0, 0), rate) else 0
  {
    hide Surcharge;
    if slots != [] {
      var n := |slots| - 1;
      NetOfBatch(e, customers, rate, slots[..n], l, c);
      var before := InflationRows(e, customers, rate, slots[..n]);
      var rows := InflationRows(e, customers, rate, slots);
      if |rows| > |before| {
        assert rows[..|rows| - 1] == before;
      }
      if slots[n].customer == c {
        assert !Visits(slots[..n], c);
      } else if Visits(slots, c) {
        var i :| 0 <= i < |slots| && slots[i].customer == c;
        assert slots[..n][i].customer == c;
      }
    }
  }

  // ─── Absorbed cents ────────────────────────────────────────────────────

  /** What the cached balance has above the signed sum of the customer's rows. */
  function Absorbed(s: Store, c: Uuid): int
    requires c in s.customers
  {
    s.customers[c].balance - Net(s.ledger, s.ledger, c)
  }

  predicate MergeHappens(s: Store, e: Env) {
    e.request.Merge? && ApplyMerge(s, e).reply.CustomerSaved?
  }

  /** Cents that the clamp at zero swallows in this step: those of a reversed debt that the
      balance no longer covers. */
  function Swallowed(s: Store, e: Env, c: Uuid): nat {
    if e.request.Reverse? && ApplyReverse(s, e).store != s then
      var original := FindTx(s.ledger, e.tenant, e.request.target).value;
      if original.customer == c && c in s.customers && IncreasesDebt(original.kind)
      then Max(0, original.amount - s.customers[c].balance) else 0
    else 0
  }

  /** How a step carries an absorbed amount: merges add the two sides up, a clamped reversal
      adds what it swallows, everything else keeps it. */
  function Carried(s: Store, e: Env, before: Uuid -> int, c: Uuid): int {
    if MergeHappens(s, e) then
      if c == e.request.primary then before(e.request.primary) + before(e.request.secondary)
      else if c == e.request.secondary then 0 else before(c)
    else before(c) + Swallowed(s, e, c)
  }

  /** The absorbed amount of a customer that may not exist yet. */
  function AbsorbedOrNil(s: Store): Uuid -> int {
    (c: Uuid) => if c in s.customers then Absorbed(s, c) else 0
  }

  lemma PostingBooks(s: Store, e: Env, c: Uuid)
    requires Inv(s) && WellFormed(s, e) && IsPosting(e.request) && c in s.customers
    ensures Absorbed(ApplyPosting(s, e).store, c) == Absorbed(s, c)
  {
    hide Tidy, Owned, Semaphore, Sealed, Decide, Net, Insertable;
    var o := ApplyPosting(s, e);
    if o.store != s {
      var q := e.request;
      var d := Decide(e, s.customers[q.customer]);
      DecideIsSound(e, s.customers[q.customer], s);
      InsertKeepsUnique(s.ledger, d.rows);
      NetOfAppend(s.ledger, d.rows, c);
      if c != q.customer {
        NetZero(d.rows, d.rows, c);
      }
    }
  }

  lemma ReverseBooks(s: Store, e: Env, c: Uuid)
    requires Inv(s) && e.request.Reverse? && c in s.customers
    ensures Absorbed(ApplyReverse(s, e).store, c) == Absorbed(s, c) + Swallowed(s, e, c)
  {
    if ApplyReverse(s, e).store != s {
      var o := ReverseShape(s, e);
      var row := ReversalRow(e, s.ledger[o]);
      MarkedIsUniqueAndTidy(s.ledger, row, o);
      NetOfReversal(s.ledger, row, o, c);
      var i := AtIndex(s.ledger, FindTx(s.ledger, e.tenant, e.request.target).value);
      SameRow(s.ledger, i, o);
    }
  }

  lemma InflateBooks(s: Store, e: Env, c: Uuid)
    requires Inv(s) && WellFormed(s, e) && e.request.Inflate? && c in s.customers
    ensures Absorbed(ApplyInflate(s, e).store, c) == Absorbed(s, c)
  {
    var o := ApplyInflate(s, e);
    if o.store != s {
      var q := e.request;
      var rows := InflationRows(e, s.customers, q.rate, q.slots);
      InflationRowsAreSound(e, s.customers, q.rate, q.slots);
      BatchRowsAreTidy(e, s.customers, q.rate, rows);
      InsertKeepsUnique(s.ledger, rows);
      NetOfAppend(s.ledger, rows, c);
      NetOfBatch(e, s.customers, q.rate, q.slots, rows, c);
      assert Visits(q.slots, c) <==> Owns(s, e.tenant, c);
    }
  }

  /** The shape of a successful merge. */
  lemma MergeShape(s: Store, e: Env)
    requires Inv(s) && MergeHappens(s, e)
    ensures var q := e.request;
            && q.primary != q.secondary && Owns(s, e.tenant, q.primary) && Owns(s, e.tenant, q.secondary)
            && var (p, r) := Absorb(s.customers[q.primary], s.customers[q.secondary]);
               ApplyMerge(s, e).store == s.(ledger := MoveRows(s.ledger, e.tenant, q.secondary, q.primary),
                                            customers := s.customers[q.primary := p][q.secondary := r])
    ensures Unique(MoveRows(s.ledger, e.tenant, e.request.secondary, e.request.primary))
    ensures forall i | 0 <= i < |s.ledger| && s.ledger[i].customer == e.request.secondary ::
      s.ledger[i].tenant == e.tenant
  {
    MergeKeepsInv(s, e);
  }

  lemma MergeBooks(s: Store, e: Env, c: Uuid)
    requires Inv(s) && e.request.Merge? && c in s.customers
    ensures Absorbed(ApplyMerge(s, e).store, c) == Carried(s, e, AbsorbedOrNil(s), c)
  {
    hide Linked, Tidy, Semaphore, Sealed, Net;
    if MergeHappens(s, e) {
      MergeShape(s, e);
      NetOfMove(s.ledger, e.tenant, e.request.secondary, e.request.primary, c);
    }
  }

  lemma CloseBooks(s: Store, e: Env, c: Uuid)
    requires Inv(s) && e.request.CloseTurn? && c in s.customers
    ensures Absorbed(ApplyClose(s, e).store, c) == Absorbed(s, c)
  {
    hide Tidy, Owned, Solvent, Semaphore, Sealed, Net;
    if ApplyClose(s, e).store != s {
      CloseKeepsInv(s, e);
      NetOfUpdate(s.ledger, ApplyClose(s, e).store.ledger, c);
    }
  }

  lemma CreateBooks(s: Store, e: Env, c: Uuid)
    requires Inv(s) && e.request.CreateCustomer? && c in ApplyCreate(s, e).store.customers
    ensures Absorbed(ApplyCreate(s, e).store, c) == AbsorbedOrNil(s)(c)
  {
    if c !in s.customers {
      NetZero(s.ledger, s.ledger, c);
    }
  }

  /** Nothing but merges and reversals changes an absorbed amount. */
  lemma CarriedOver(s: Store, e: Env, c: Uuid)
    requires !e.request.Merge? && !e.request.Reverse? && c in s.customers
    ensures Carried(s, e, AbsorbedOrNil(s), c) == Absorbed(s, c)
  {
  }

  lemma ReverseCarries(s: Store, e: Env, c: Uuid)
    requires Inv(s) && e.request.Reverse? && c in ApplyReverse(s, e).store.customers
    ensures Absorbed(ApplyReverse(s, e).store, c) == Carried(s, e, AbsorbedOrNil(s), c)
  {
    hide Inv, Absorbed, Swallowed, FindKey, FindTx, Insertable;
    ReverseBooks(s, e, c);
  }

  lemma CreateCarries(s: Store, e: Env, c: Uuid)
    requires Inv(s) && e.request.CreateCustomer? && c in ApplyCreate(s, e).store.customers
    ensures Absorbed(ApplyCreate(s, e).store, c) == Carried(s, e, AbsorbedOrNil(s), c)
  {
    hide Inv, Absorbed, ApplyCreate;
    CreateBooks(s, e, c);
  }

  lemma AccountsCarry(s: Store, e: Env, c: Uuid)
    requires e.request.SetLimit? || e.request.ToggleBlock? || e.request.OpenTurn?
    requires c in Apply(s, e).store.customers
    ensures Absorbed(Apply(s, e).store, c) == Carried(s, e, AbsorbedOrNil(s), c)
  {
    hide Net;
  }

  lemma CustomersStay(s: Store, e: Env)
    requires IsPosting(e.request) || e.request.Inflate? || e.request.Merge? || e.request.CloseTurn?
    ensures Apply(s, e).store.customers.Keys == s.customers.Keys
  {
  }

  /** The exact effect of any step on what the clamp has absorbed. */
  lemma StepBooks(s: Store, e: Env, c: Uuid)
    requires Inv(s) && WellFormed(s, e) && c in Apply(s, e).store.customers
    ensures Absorbed(Apply(s, e).store, c) == Carried(s, e, AbsorbedOrNil(s), c)
  {
    hide Inv, WellFormed, Absorbed, Carried, ApplyPosting, ApplyReverse, ApplyInflate, ApplyCreate, ApplyMerge,
      ApplyClose;
    match e.request
    case Reverse(_, _, _) => ReverseCarries(s, e, c);
    case CreateCustomer(_, _, _, _, _) => CreateCarries(s, e, c);
    case Merge(_, _) =>
      CustomersStay(s, e);
      MergeBooks(s, e, c);
    case Inflate(_, _, _) =>
      CustomersStay(s, e);
      InflateBooks(s, e, c);
      CarriedOver(s, e, c);
    case CloseTurn(_, _) =>
      CustomersStay(s, e);
      CloseBooks(s, e, c);
      CarriedOver(s, e, c);
    case SetLimit(_, _) => AccountsCarry(s, e, c);
    case ToggleBlock(_) => AccountsCarry(s, e, c);
    case OpenTurn(_, _) => AccountsCarry(s, e, c);
    case _ =>
      CustomersStay(s, e);
      PostingBooks(s, e, c);
      CarriedOver(s, e, c);
  }

  /** The history of clamps that a customer's balance carries, read off the requests. */
  ghost function Swept(s: Store, es: seq<Env>): Uuid -> int
    decreases |es|
  {
    if es == [] then (c: Uuid) => 0
    else
      var before := Swept(s, es[..|es| - 1]);
      var at, e := Run(s, es[..|es| - 1]), es[|es| - 1];
      (c: Uuid) => Carried(at, e, before, c)
  }

  ghost predicate Balanced(s: Store) {
    forall c | c in s.customers :: Absorbed(s, c) == 0
  }

  lemma {:induction false} SweptIsNatural(s: Store, es: seq<Env>, c: Uuid)
    ensures 0 <= Swept(s, es)(c)
  {
    if es != [] {
      var n := |es| - 1;
      SweptIsNatural(s, es[..n], c);
      var e := es[n];
      if e.request.Merge? {
        SweptIsNatural(s, es[..n], e.request.primary);
        SweptIsNatural(s, es[..n], e.request.secondary);
      }
    }
  }

  /** Conservation. After any run from balanced books, each balance is the signed sum of the
      customer's rows plus the cents that clamped reversals swallowed on the way; customers
      that do not exist yet carry nothing. */
  lemma {:induction false} Conservation(s: Store, es: seq<Env>, c: Uuid)
    requires Inv(s) && Balanced(s) && WellFormedRun(s, es)
    ensures var t := Run(s, es);
            && 0 <= Swept(s, es)(c)
            && (c in t.customers ==>
                  t.customers[c].balance == Net(t.ledger, t.ledger, c) + Swept(s, es)(c))
            && (c !in t.customers ==> Swept(s, es)(c) == 0)
  {
    hide Inv, WellFormed;
    SweptIsNatural(s, es, c);
    if es != [] {
      var n := |es| - 1;
      var at, e := Run(s, es[..n]), es[n];
      RunKeepsInv(s, es[..n]);
      Conservation(s, es[..n], c);
      if MergeHappens(at, e) {
        Conservation(s, es[..n], e.request.primary);
        Conservation(s, es[..n], e.request.secondary);
        assert Owns(at, e.tenant, e.request.primary) && Owns(at, e.tenant, e.request.secondary);
      }
      if c in Apply(at, e).store.customers {
        StepBooks(at, e, c);
      } else {
        StepKeepsCustomers(at, e);
      }
    }
  }

  lemma StepKeepsCustomers(s: Store, e: Env)
    ensures s.customers.Keys <= Apply(s, e).store.customers.Keys
  {
  }

  // ─── Two views of the books ────────────────────────────────────────────

  function GapShare(r: Row, l: seq<Row>, c: Uuid): int {
    Contribution(r, l, c) - LiveShare(r, c) - ReReversedShare(r, c)
  }

  function Gap(rows: seq<Row>, l: seq<Row>, c: Uuid): int {
    if rows == [] then 0 else Gap(rows[..|rows| - 1], l, c) + GapShare(rows[|rows| - 1], l, c)
  }

  lemma {:induction false} GapSplits(rows: seq<Row>, l: seq<Row>, c: Uuid)
    ensures Gap(rows, l, c) == Net(rows, l, c) - Live(rows, c) - ReReversed(rows, c)
  {
    if rows != [] {
      GapSplits(rows[..|rows| - 1], l, c);
    }
  }

  /** Two ledgers whose rows agree on the gap except at `o`. */
  lemma {:induction false} GapUpdate(rows: seq<Row>, l: seq<Row>, rows': seq<Row>, l': seq<Row>, o: int, c: Uuid)
    requires |rows| == |rows'|
    requires forall i | 0 <= i < |rows| && i != o :: GapShare(rows[i], l, c) == GapShare(rows'[i], l', c)
    ensures Gap(rows', l', c) == Gap(rows, l, c)
      + if 0 <= o < |rows| then GapShare(rows'[o], l', c) - GapShare(rows[o], l, c) else 0
  {
    if rows != [] {
      var n := |rows| - 1;
      GapUpdate(rows[..n], l, rows'[..n], l', o, c);
    }
  }

  lemma {:induction false} GapJoin(rows: seq<Row>, l: seq<Row>, rows': seq<Row>, l': seq<Row>, a: Uuid, b: Uuid)
    requires |rows| == |rows'|
    requires forall i | 0 <= i < |rows| ::
      GapShare(rows'[i], l', a) == GapShare(rows[i], l, a) + GapShare(rows[i], l, b)
    ensures Gap(rows', l', a) == Gap(rows, l, a) + Gap(rows, l, b)
  {
    if rows != [] {
      var n := |rows| - 1;
      GapJoin(rows[..n], l, rows'[..n], l', a, b);
    }
  }

  /** Rows without a gap of their own add none. */
  lemma {:induction false} GapAppend(rows: seq<Row>, more: seq<Row>, l: seq<Row>, c: Uuid)
    requires forall i | 0 <= i < |more| :: GapShare(more[i], l, c) == 0
    ensures Gap(rows + more, l, c) == Gap(rows, l, c)
  {
    if more == [] {
      assert rows + more == rows;
    } else {
      var n := |more| - 1;
      assert (rows + more)[..|rows + more| - 1] == rows + more[..n];
      GapAppend(rows, more[..n], l, c);
    }
  }

  ghost predicate Reconciled(l: seq<Row>) {
    forall c :: Gap(l, l, c) == 0
  }

  lemma AppendKeepsReconciled(l: seq<Row>, rows: seq<Row>)
    requires Linked(l) && Unique(l + rows) && Reconciled(l)
    requires forall i | 0 <= i < |rows| :: Plain(rows[i])
    ensures Reconciled(l + rows)
  {
    var m := l + rows;
    forall c ensures Gap(m, m, c) == 0 {
      GapAppend(l, rows, m, c);
      forall i | 0 <= i < |l| ensures GapShare(l[i], l, c) == GapShare(l[i], m, c) {
        ContributionStable(l, m, i, c);
      }
      GapUpdate(l, l, l, m, -1, c);
    }
  }

  lemma UpdateKeepsReconciled(l: seq<Row>, m: seq<Row>)
    requires Linked(l) && Unique(m) && Reconciled(l) && Grows(l, m) && |l| == |m|
    requires forall i | 0 <= i < |l| :: m[i] == l[i].(shift := m[i].shift)
    ensures Reconciled(m)
  {
    forall c ensures Gap(m, m, c) == 0 {
      forall i | 0 <= i < |l| ensures GapShare(l[i], l, c) == GapShare(m[i], m, c) {
        ContributionStable(l, m, i, c);
      }
      GapUpdate(l, l, m, m, -1, c);
    }
  }

  lemma MoveKeepsReconciled(l: seq<Row>, tenant: Uuid, q: Uuid, p: Uuid)
    requires Linked(l) && Unique(MoveRows(l, tenant, q, p)) && Reconciled(l) && p != q
    requires forall i | 0 <= i < |l| && l[i].customer == q :: l[i].tenant == tenant
    ensures Reconciled(MoveRows(l, tenant, q, p))
  {
    var m := MoveRows(l, tenant, q, p);
    forall i | 0 <= i < |l| ensures Signed(m[i], m) == Signed(l[i], l) {
      if l[i].kind == REVERSAL {
        assert HasOriginal(l, i);
      }
      SignedStable(l[i], m[i], l, m);
    }
    forall c ensures Gap(m, m, c) == 0 {
      if c == p {
        GapJoin(l, l, m, m, p, q);
      } else if c == q {
        GapAppend([], m, m, q);
        assert [] + m == m;
      } else {
        GapUpdate(l, l, m, m, -1, c);
      }
    }
  }

  lemma ReverseKeepsReconciled(l: seq<Row>, row: Row, o: nat)
    requires Linked(l) && Reconciled(l) && o < |l| && !l[o].reversed && !row.reversed
    requires Unique(l[o := l[o].(reversed := true)] + [row])
    requires Undoes(row, l[o].(reversed := true))
    ensures Reconciled(l[o := l[o].(reversed := true)] + [row])
  {
    var marked := l[o := l[o].(reversed := true)];
    var m := marked + [row];
    FindIdUnique(m, o);
    forall c ensures Gap(m, m, c) == 0 {
      assert m[..|m| - 1] == marked;
      forall i | 0 <= i < |l| && i != o ensures GapShare(l[i], l, c) == GapShare(marked[i], m, c) {
        ContributionStable(l, m, i, c);
      }
      ContributionStable(l, m, o, c);
      GapUpdate(l, l, marked, m, o, c);
    }
  }

  lemma AppendingKeepsReconciled(s: Store, e: Env)
    requires Inv(s) && WellFormed(s, e) && Reconciled(s.ledger) && (IsPosting(e.request) || e.request.Inflate?)
    ensures Reconciled(Apply(s, e).store.ledger)
  {
    if Apply(s, e).store != s {
      if IsPosting(e.request) {
        var d := Decide(e, s.customers[e.request.customer]);
        DecideIsSound(e, s.customers[e.request.customer], s);
        InsertKeepsUnique(s.ledger, d.rows);
        AppendKeepsReconciled(s.ledger, d.rows);
      } else {
        var q := e.request;
        var rows := InflationRows(e, s.customers, q.rate, q.slots);
        InflationRowsAreSound(e, s.customers, q.rate, q.slots);
        BatchRowsAreTidy(e, s.customers, q.rate, rows);
        InsertKeepsUnique(s.ledger, rows);
        AppendKeepsReconciled(s.ledger, rows);
      }
    }
  }

  lemma ReversingKeepsReconciled(s: Store, e: Env)
    requires Inv(s) && Reconciled(s.ledger) && e.request.Reverse?
    ensures Reconciled(ApplyReverse(s, e).store.ledger)
  {
    hide Reconciled;
    if ApplyReverse(s, e).store != s {
      var o := ReverseShape(s, e);
      MarkedIsUniqueAndTidy(s.ledger, ReversalRow(e, s.ledger[o]), o);
      ReverseKeepsReconciled(s.ledger, ReversalRow(e, s.ledger[o]), o);
    }
  }

  lemma MergingKeepsReconciled(s: Store, e: Env)
    requires Inv(s) && Reconciled(s.ledger) && e.request.Merge?
    ensures Reconciled(ApplyMerge(s, e).store.ledger)
  {
    hide Reconciled;
    if MergeHappens(s, e) {
      MergeShape(s, e);
      MoveKeepsReconciled(s.ledger, e.tenant, e.request.secondary, e.request.primary);
    }
  }

  lemma ClosingKeepsReconciled(s: Store, e: Env)
    requires Inv(s) && Reconciled(s.ledger) && e.request.CloseTurn?
    ensures Reconciled(ApplyClose(s, e).store.ledger)
  {
    hide Reconciled, Tidy, Owned, Solvent, Semaphore, Sealed;
    if ApplyClose(s, e).store != s {
      CloseKeepsInv(s, e);
      UpdateKeepsReconciled(s.ledger, ApplyClose(s, e).store.ledger);
    }
  }

  lemma StepKeepsReconciled(s: Store, e: Env)
    requires Inv(s) && WellFormed(s, e) && Reconciled(s.ledger)
    ensures Reconciled(Apply(s, e).store.ledger)
  {
    hide Inv, WellFormed, Reconciled;
    match e.request
    case Reverse(_, _, _) => ReversingKeepsReconciled(s, e);
    case Merge(_, _) => MergingKeepsReconciled(s, e);
    case CloseTurn(_, _) => ClosingKeepsReconciled(s, e);
    case CreateCustomer(_, _, _, _, _) =>
    case SetLimit(_, _) =>
    case ToggleBlock(_) =>
    case OpenTurn(_, _) =>
    case _ => AppendingKeepsReconciled(s, e);
  }

  /** A new installation, tenants without customers, rows or shifts, satisfies the invariants, its
      books balanced in both views. */
  lemma NewInstallationIsSound(tenants: map<Uuid, Tenant>)
    requires forall t | t in tenants :: tenants[t].activeShift.None?
    ensures var s := Store(tenants, map[], [], map[], []); Inv(s) && Balanced(s) && Reconciled(s.ledger)
  {
  }

  /** Two views of the books. After any run the full history of a customer sums to the live
      rows alone plus the amounts of reversals that were themselves reversed. */
  lemma {:induction false} TwoViews(s: Store, es: seq<Env>)
    requires Inv(s) && Reconciled(s.ledger) && WellFormedRun(s, es)
    ensures Reconciled(Run(s, es).ledger)
    ensures var l := Run(s, es).ledger;
            forall c :: Net(l, l, c) == Live(l, c) + ReReversed(l, c)
  {
    if es != [] {
      var n := |es| - 1;
      TwoViews(s, es[..n]);
      RunKeepsInv(s, es[..n]);
      StepKeepsReconciled(Run(s, es[..n]), es[n]);
    }
    var l := Run(s, es).ledger;
    forall c ensures Net(l, l, c) == Live(l, c) + ReReversed(l, c) {
      GapSplits(l, l, c);
    }
  }

  lemma {:induction false} ReReversedIsZeroExactly(rows: seq<Row>, c: Uuid)
    requires forall i | 0 <= i < |rows| :: 0 <= rows[i].amount
    ensures 0 <= ReReversed(rows, c)
    ensures ReReversed(rows, c) == 0 <==> forall i | 0 <= i < |rows| :: ReReversedShare(rows[i], c) == 0
  {
    if rows != [] {
      ReReversedIsZeroExactly(rows[..|rows| - 1], c);
      if ReReversed(rows, c) == 0 {
        forall i | 0 <= i < |rows| ensures ReReversedShare(rows[i], c) == 0 {
          if i < |rows| - 1 {
            assert ReReversedShare(rows[..|rows| - 1][i], c) == 0;
          }
        }
      }
    }
  }

  /** The full history and the live rows agree for a customer if and only if no reversal of a
      non-zero amount was itself reversed. */
  lemma ViewsAgreeExactly(s: Store, es: seq<Env>, c: Uuid)
    requires Inv(s) && Reconciled(s.ledger) && WellFormedRun(s, es)
    ensures var l := Run(s, es).ledger;
            Net(l, l, c) == Live(l, c) <==>
              forall i | 0 <= i < |l| && l[i].customer == c && l[i].kind == REVERSAL && l[i].reversed ::
                l[i].amount == 0
  {
    hide Linked, Owned, Solvent, Semaphore, Sealed, Unique, Net, Live, WellFormedRun, Run;
    var l := Run(s, es).ledger;
    TwoViews(s, es);
    RunKeepsInv(s, es);
    ReReversedIsZeroExactly(l, c);
    if forall i | 0 <= i < |l| && l[i].customer == c && l[i].kind == REVERSAL && l[i].reversed :: l[i].amount == 0 {
      assert forall i | 0 <= i < |l| :: ReReversedShare(l[i], c) == 0;
    } else {
      var i :| 0 <= i < |l| && l[i].customer == c && l[i].kind == REVERSAL && l[i].reversed && l[i].amount != 0;
      assert ReReversedShare(l[i], c) != 0;
    }
  }
}
