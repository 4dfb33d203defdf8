/** The cash register: one open shift, a faithful summary, closed shifts that stay true. */
module Cash {
  import opened Domain
  import opened Rounding
  import opened Ledger
  import opened Till
  import opened Engine
  import opened Invariants
  import opened Books

  // ─── One open shift ────────────────────────────────────────────────────

  /** Two open shifts of one tenant are the same shift. */
  lemma OpenShiftIsUnique(s: Store, i: nat, j: nat)
    requires Inv(s) && i < |s.shifts| && j < |s.shifts|
    requires s.shifts[i].status == OPEN && s.shifts[j].status == OPEN && s.shifts[i].tenant == s.shifts[j].tenant
    ensures i == j
  {
  }

  /** The shift found by status, as the summary finds it, is the shift the semaphore names, as the
      close finds it; without a semaphore there is none. */
  lemma SemaphoreAndStatusAgree(s: Store, tenant: Uuid)
    requires Inv(s)
    ensures FindOpen(s.shifts, tenant).Some? <==>
              tenant in s.tenants && s.tenants[tenant].activeShift.Some?
    ensures tenant in s.tenants && s.tenants[tenant].activeShift.Some? ==>
              FindOpen(s.shifts, tenant) == FindOpenById(s.shifts, tenant, s.tenants[tenant].activeShift.value)
  {
    var byStatus := FindOpen(s.shifts, tenant);
    if byStatus.Some? {
      var i :| 0 <= i < |s.shifts| && s.shifts[i] == byStatus.value;
      assert s.shifts[i].status == OPEN;
      var byName := FindOpenById(s.shifts, tenant, s.shifts[i].id);
      assert byName.Some?;
      var j :| 0 <= j < |s.shifts| && s.shifts[j] == byName.value;
      OpenShiftIsUnique(s, i, j);
    }
  }

  /** The summary shown before a close is what the close then records, and the rows it
      freezes add up to the cash and the transfers the summary announced. */
  lemma SummaryForetellsClose(s: Store, e: Env)
    requires Inv(s) && e.request.CloseTurn?
    requires ApplyClose(s, e).reply.ShiftSaved? && SummaryOf(s, e.tenant).Some?
    ensures var o, summary := ApplyClose(s, e), SummaryOf(s, e.tenant).value;
            var h := o.reply.shift;
            && summary.shiftId == Some(h.id)
            && h.expected == Some(summary.expected)
            && h.opening == summary.opening
            && CashIn(o.store.ledger, h.id) == summary.expected - summary.opening
            && PaidIn(o.store.ledger, h.id) == summary.expected - summary.opening + summary.transfers
            && CountIn(o.store.ledger, h.id) == summary.count
  {
    hide Inv;
    SemaphoreAndStatusAgree(s, e.tenant);
    CloseCollects(s, e);
  }

  /** A successful close is of the shift the semaphore names, and collects what was due. */
  lemma CloseCollects(s: Store, e: Env)
    requires Inv(s) && e.request.CloseTurn? && ApplyClose(s, e).reply.ShiftSaved?
    ensures e.tenant in s.tenants && s.tenants[e.tenant].activeShift.Some?
    ensures FindOpenById(s.shifts, e.tenant, s.tenants[e.tenant].activeShift.value).Some?
    ensures var open := FindOpenById(s.shifts, e.tenant, s.tenants[e.tenant].activeShift.value).value;
            var h, l := ApplyClose(s, e).reply.shift, ApplyClose(s, e).store.ledger;
            && h.id == open.id && h.opening == open.opening
            && h.expected == Some(open.opening + CashDue(s.ledger, e.tenant, open.openedAt))
            && CashIn(l, h.id) == CashDue(s.ledger, e.tenant, open.openedAt)
            && PaidIn(l, h.id)
                == CashDue(s.ledger, e.tenant, open.openedAt) + TransferDue(s.ledger, e.tenant, open.openedAt)
            && CountIn(l, h.id) == CashCount(s.ledger, e.tenant, open.openedAt)
  {
    hide Linked, Tidy, Owned, Solvent, Semaphore, Accounted, Unique, Freeze;
    var open := FindOpenById(s.shifts, e.tenant, s.tenants[e.tenant].activeShift.value).value;
    var k :| 0 <= k < |s.shifts| && s.shifts[k] == open;
    OpenShiftIsEmpty(s.ledger, s.shifts, k);
    FreezeCollects(s.ledger, e.tenant, open.openedAt, open.id);
  }

  /** Exactly when the summary shows no shift, a close of an existing tenant is refused for
      having none to close. */
  lemma NoSummaryNoClose(s: Store, e: Env)
    requires Inv(s) && e.request.CloseTurn? && e.tenant in s.tenants
    ensures SummaryOf(s, e.tenant) == Some(Summary(None, 0, 0, None, 0, 0)) <==>
              ApplyClose(s, e) == Outcome(s, Rejected(NoOpenTurn))
  {
    SemaphoreAndStatusAgree(s, e.tenant);
  }

  // ─── Closed shifts stay true ───────────────────────────────────────────

  /** `m` holds the rows of shift `id` exactly where `l` does, unchanged but for their owner
      and reversal flag. */
  ghost predicate SameFrozen(l: seq<Row>, m: seq<Row>, id: Uuid) {
    && |l| <= |m|
    && (forall i | 0 <= i < |l| :: Evolves(l[i], m[i]) && (m[i].shift == Some(id) <==> l[i].shift == Some(id)))
    && (forall i | |l| <= i < |m| :: m[i].shift != Some(id))
  }

  /** The store may only add shifts and close open ones. */
  ghost predicate KeepsClosed(s: Store, t: Store) {
    && |s.shifts| <= |t.shifts|
    && (forall k | 0 <= k < |s.shifts| && s.shifts[k].status != OPEN ::
          t.shifts[k] == s.shifts[k] && SameFrozen(s.ledger, t.ledger, s.shifts[k].id))
  }

  lemma CloseKeepsClosed(s: Store, e: Env)
    requires Inv(s) && e.request.CloseTurn?
    ensures KeepsClosed(s, ApplyClose(s, e).store)
  {
    hide Linked, Tidy, Owned, Solvent, Semaphore, Accounted, Unique;
    if ApplyClose(s, e).store != s {
      var k := CloseShape(s, e);
    }
  }

  /** A step that freezes nothing. */
  ghost predicate Quiet(s: Store, t: Store) {
    && s.shifts <= t.shifts && Grows(s.ledger, t.ledger)
    && (forall i | 0 <= i < |s.ledger| :: t.ledger[i].shift == s.ledger[i].shift)
    && (forall i | |s.ledger| <= i < |t.ledger| :: t.ledger[i].shift.None?)
  }

  lemma QuietKeepsClosed(s: Store, t: Store)
    requires Quiet(s, t)
    ensures KeepsClosed(s, t)
  {
  }

  lemma ReverseIsQuiet(s: Store, e: Env)
    requires Inv(s) && e.request.Reverse?
    ensures Quiet(s, ApplyReverse(s, e).store)
  {
    if ApplyReverse(s, e).store != s {
      var o := ReverseShape(s, e);
    }
  }

  lemma PostingIsQuiet(s: Store, e: Env)
    requires Inv(s) && WellFormed(s, e) && IsPosting(e.request)
    ensures Quiet(s, ApplyPosting(s, e).store)
  {
    hide Linked, Tidy, Owned, Semaphore, Sealed, Unique, Decide, Insertable;
    if ApplyPosting(s, e).store != s {
      DecideIsSound(e, s.customers[e.request.customer], s);
    }
  }

  lemma InflateIsQuiet(s: Store, e: Env)
    requires Inv(s) && WellFormed(s, e) && e.request.Inflate?
    ensures Quiet(s, ApplyInflate(s, e).store)
  {
    var q := e.request;
    InflationRowsAreSound(e, s.customers, q.rate, q.slots);
    BatchRowsAreTidy(e, s.customers, q.rate, InflationRows(e, s.customers, q.rate, q.slots));
  }

  lemma MergeIsQuiet(s: Store, e: Env)
    requires e.request.Merge?
    ensures Quiet(s, ApplyMerge(s, e).store)
  {
  }

  lemma AccountsAreQuiet(s: Store, e: Env)
    requires e.request.CreateCustomer? || e.request.SetLimit? || e.request.ToggleBlock? || e.request.OpenTurn?
    ensures Quiet(s, Apply(s, e).store)
  {
  }

  /** Only closing a shift freezes rows. */
  lemma StepIsQuiet(s: Store, e: Env)
    requires Inv(s) && WellFormed(s, e) && !e.request.CloseTurn?
    ensures Quiet(s, Apply(s, e).store)
  {
    hide Inv, WellFormed, Quiet, ApplyPosting, ApplyReverse, ApplyInflate, ApplyMerge, ApplyCreate;
    match e.request
    case Reverse(_, _, _) => ReverseIsQuiet(s, e);
    case Inflate(_, _, _) => InflateIsQuiet(s, e);
    case Merge(_, _) => MergeIsQuiet(s, e);
    case CreateCustomer(_, _, _, _, _) => AccountsAreQuiet(s, e);
    case SetLimit(_, _) => AccountsAreQuiet(s, e);
    case ToggleBlock(_) => AccountsAreQuiet(s, e);
    case OpenTurn(_, _) => AccountsAreQuiet(s, e);
    case _ => PostingIsQuiet(s, e);
  }

  lemma StepKeepsClosed(s: Store, e: Env)
    requires Inv(s) && WellFormed(s, e)
    ensures KeepsClosed(s, Apply(s, e).store)
  {
    if e.request.CloseTurn? {
      CloseKeepsClosed(s, e);
    } else {
      StepIsQuiet(s, e);
      QuietKeepsClosed(s, Apply(s, e).store);
    }
  }

  /** Closed shifts stay true for ever: whatever is served later, a closed shift keeps its
      record and its rows, and its expected cash is still its opening cash plus the
      non-transfer payments frozen into it. */
  lemma {:induction false} ClosedForever(s: Store, es: seq<Env>, k: nat)
    requires Inv(s) && WellFormedRun(s, es)
    requires k < |s.shifts| && s.shifts[k].status != OPEN
    ensures var t, h := Run(s, es), s.shifts[k];
            && k < |t.shifts| && t.shifts[k] == h
            && SameFrozen(s.ledger, t.ledger, h.id)
            && h.expected == Some(h.opening + CashIn(t.ledger, h.id))
  {
    hide Inv, WellFormedRun, Run, SameFrozen, CashIn;
    KeptClosedOverRun(s, es);
    RunKeepsInv(s, es);
    ClosedAddsUp(Run(s, es), k);
  }

  lemma ClosedAddsUp(t: Store, k: nat)
    requires Inv(t) && k < |t.shifts| && t.shifts[k].status != OPEN
    ensures t.shifts[k].expected == Some(t.shifts[k].opening + CashIn(t.ledger, t.shifts[k].id))
  {
    assert Accounted(t.shifts[k], t.ledger);
  }

  lemma {:induction false} KeptClosedOverRun(s: Store, es: seq<Env>)
    requires Inv(s) && WellFormedRun(s, es)
    ensures KeepsClosed(s, Run(s, es))
  {
    if es != [] {
      var n := |es| - 1;
      KeptClosedOverRun(s, es[..n]);
      RunKeepsInv(s, es[..n]);
      StepKeepsClosed(Run(s, es[..n]), es[n]);
      KeepsClosedTransitive(s, Run(s, es[..n]), Run(s, es));
    }
  }

  lemma KeepsClosedTransitive(s: Store, t: Store, u: Store)
    requires KeepsClosed(s, t) && KeepsClosed(t, u)
    ensures KeepsClosed(s, u)
  {
    forall k | 0 <= k < |s.shifts| && s.shifts[k].status != OPEN
      ensures u.shifts[k] == s.shifts[k] && SameFrozen(s.ledger, u.ledger, s.shifts[k].id)
    {
      assert t.shifts[k] == s.shifts[k];
      SameFrozenTransitive(s.ledger, t.ledger, u.ledger, s.shifts[k].id);
    }
  }

  lemma SameFrozenTransitive(a: seq<Row>, b: seq<Row>, c: seq<Row>, id: Uuid)
    requires SameFrozen(a, b, id) && SameFrozen(b, c, id)
    ensures SameFrozen(a, c, id)
  {
    GrowsTransitive(a, b, c);
    forall i | 0 <= i < |a| ensures c[i].shift == Some(id) <==> a[i].shift == Some(id) {
      assert Evolves(a[i], b[i]) && Evolves(b[i], c[i]);
    }
  }

  // ─── The drawer over all shifts ────────────────────────────────────────

  predicate IsClosedOf(h: Shift, tenant: Uuid) {
    h.tenant == tenant && h.status != OPEN
  }

  function OpeningTotal(shifts: seq<Shift>, tenant: Uuid): int {
    if shifts == [] then 0
    else
      var h := shifts[|shifts| - 1];
      OpeningTotal(shifts[..|shifts| - 1], tenant) + if IsClosedOf(h, tenant) then h.opening else 0
  }

  function ActualTotal(shifts: seq<Shift>, tenant: Uuid): int {
    if shifts == [] then 0
    else
      var h := shifts[|shifts| - 1];
      ActualTotal(shifts[..|shifts| - 1], tenant)
      + if IsClosedOf(h, tenant) && h.actual.Some? then h.actual.value else 0
  }

  function DiscrepancyTotal(shifts: seq<Shift>, tenant: Uuid): int {
    if shifts == [] then 0
    else
      var h := shifts[|shifts| - 1];
      DiscrepancyTotal(shifts[..|shifts| - 1], tenant)
      + if IsClosedOf(h, tenant) && h.discrepancy.Some? then h.discrepancy.value else 0
  }

  function CountedShare(r: Row, tenant: Uuid): int {
    if r.tenant == tenant && r.shift.Some? && (r.paidBy.None? || r.paidBy == Some(CASH)) then r.amount else 0
  }

  /** The tenant's cash payments that some close has counted. */
  function CountedCash(l: seq<Row>, tenant: Uuid): int {
    if l == [] then 0 else CountedCash(l[..|l| - 1], tenant) + CountedShare(l[|l| - 1], tenant)
  }

  /** The frozen cash of all closed shifts of a tenant, shift by shift. */
  function CashInAll(shifts: seq<Shift>, l: seq<Row>, tenant: Uuid): int {
    if shifts == [] then 0
    else
      var h := shifts[|shifts| - 1];
      CashInAll(shifts[..|shifts| - 1], l, tenant) + if IsClosedOf(h, tenant) then CashIn(l, h.id) else 0
  }

  /** What one row adds over all shifts. */
  function RowInAll(shifts: seq<Shift>, r: Row, tenant: Uuid): int {
    if shifts == [] then 0
    else
      var h := shifts[|shifts| - 1];
      RowInAll(shifts[..|shifts| - 1], r, tenant) + if IsClosedOf(h, tenant) then CashInShare(r, h.id) else 0
  }

  lemma {:induction false} CashInAllAppend(shifts: seq<Shift>, l: seq<Row>, tenant: Uuid)
    requires l != []
    ensures CashInAll(shifts, l, tenant)
         == CashInAll(shifts, l[..|l| - 1], tenant) + RowInAll(shifts, l[|l| - 1], tenant)
  {
    if shifts != [] {
      CashInAllAppend(shifts[..|shifts| - 1], l, tenant);
    }
  }

  lemma {:induction false} CashInAllNil(shifts: seq<Shift>, tenant: Uuid)
    ensures CashInAll(shifts, [], tenant) == 0
  {
    if shifts != [] {
      CashInAllNil(shifts[..|shifts| - 1], tenant);
    }
  }

  /** A row counts in one shift only: the one that holds it, if any. */
  lemma {:induction false} RowCountsOnce(shifts: seq<Shift>, r: Row, tenant: Uuid)
    requires UniqueShifts(shifts)
    requires forall j | 0 <= j < |shifts| && r.shift == Some(shifts[j].id) :: HoldsRow(shifts[j], r)
    ensures RowInAll(shifts, r, tenant)
         == if exists j :: 0 <= j < |shifts| && HoldsRow(shifts[j], r) then CountedShare(r, tenant) else 0
  {
    if shifts != [] {
      var n := |shifts| - 1;
      var front := shifts[..n];
      RowCountsOnce(front, r, tenant);
      if HoldsRow(shifts[n], r) {
        assert forall j | 0 <= j < n :: front[j].id != shifts[n].id;
      } else if exists j :: 0 <= j < |shifts| && HoldsRow(shifts[j], r) {
        var j :| 0 <= j < |shifts| && HoldsRow(shifts[j], r);
        assert HoldsRow(front[j], r);
      }
    }
  }

  /** Shift by shift or row by row, the counted cash is the same: no payment is counted twice. */
  lemma {:induction false} CountedOnce(shifts: seq<Shift>, l: seq<Row>, tenant: Uuid)
    requires UniqueShifts(shifts)
    requires forall i | 0 <= i < |l| && l[i].shift.Some? :: exists j :: 0 <= j < |shifts| && HoldsRow(shifts[j], l[i])
    ensures CashInAll(shifts, l, tenant) == CountedCash(l, tenant)
  {
    if l == [] {
      CashInAllNil(shifts, tenant);
    } else {
      var n := |l| - 1;
      CountedOnce(shifts, l[..n], tenant);
      CashInAllAppend(shifts, l, tenant);
      RowCountsOnce(shifts, l[n], tenant);
    }
  }

  lemma {:induction false} ShiftTotals(shifts: seq<Shift>, l: seq<Row>, tenant: Uuid)
    requires forall i | 0 <= i < |shifts| && shifts[i].status != OPEN :: Accounted(shifts[i], l)
    ensures ActualTotal(shifts, tenant)
         == OpeningTotal(shifts, tenant) + CashInAll(shifts, l, tenant) + DiscrepancyTotal(shifts, tenant)
  {
    if shifts != [] {
      var n := |shifts| - 1;
      ShiftTotals(shifts[..n], l, tenant);
      if shifts[n].status != OPEN {
        assert Accounted(shifts[n], l);
      }
    }
  }

  /** Over any run the money handed in is the opening money plus every counted cash payment,
      each once, plus the recorded discrepancies. */
  lemma DrawerReconciles(s: Store, es: seq<Env>, tenant: Uuid)
    requires Inv(s) && WellFormedRun(s, es)
    ensures var t := Run(s, es);
            && ActualTotal(t.shifts, tenant)
               == OpeningTotal(t.shifts, tenant) + CountedCash(t.ledger, tenant) + DiscrepancyTotal(t.shifts, tenant)
  {
    RunKeepsInv(s, es);
    var t := Run(s, es);
    ShiftTotals(t.shifts, t.ledger, tenant);
    CountedOnce(t.shifts, t.ledger, tenant);
  }
}
