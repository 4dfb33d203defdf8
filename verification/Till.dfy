/** The cash register: shift lookups and the SQL sums over payments. */
module Till {
  import opened Domain
  import opened Ledger

  /** In cash, or without a stated method. */
  predicate CountsAsCash(r: Row) {
    r.paidBy == Some(CASH) || r.paidBy.None?
  }

  function CashDueShare(r: Row, tenant: Uuid, openedAt: int): int {
    if Pending(r, tenant, openedAt) && CountsAsCash(r) then r.amount else 0
  }

  /** SUM of the pending cash payments since `openedAt`. */
  function CashDue(l: seq<Row>, tenant: Uuid, openedAt: int): int {
    if l == [] then 0 else CashDue(l[..|l| - 1], tenant, openedAt) + CashDueShare(l[|l| - 1], tenant, openedAt)
  }

  /** COUNT over the same rows. */
  function CashCount(l: seq<Row>, tenant: Uuid, openedAt: int): nat {
    if l == [] then 0
    else
      CashCount(l[..|l| - 1], tenant, openedAt)
      + if Pending(l[|l| - 1], tenant, openedAt) && CountsAsCash(l[|l| - 1]) then 1 else 0
  }

  function TransferDueShare(r: Row, tenant: Uuid, openedAt: int): int {
    if Pending(r, tenant, openedAt) && r.paidBy == Some(TRANSFER) then r.amount else 0
  }

  /** SUM of the pending transfers since `openedAt`. */
  function TransferDue(l: seq<Row>, tenant: Uuid, openedAt: int): int {
    if l == [] then 0
    else TransferDue(l[..|l| - 1], tenant, openedAt) + TransferDueShare(l[|l| - 1], tenant, openedAt)
  }

  function CashInShare(r: Row, shift: Uuid): int {
    if r.shift == Some(shift) && (r.paidBy.None? || r.paidBy == Some(CASH)) then r.amount else 0
  }

  /** The cash among the payments frozen into a shift. */
  function CashIn(l: seq<Row>, shift: Uuid): int {
    if l == [] then 0 else CashIn(l[..|l| - 1], shift) + CashInShare(l[|l| - 1], shift)
  }

  function PaidInShare(r: Row, shift: Uuid): int {
    if r.shift == Some(shift) then r.amount else 0
  }

  /** All payments frozen into a shift, whatever the method. */
  function PaidIn(l: seq<Row>, shift: Uuid): int {
    if l == [] then 0 else PaidIn(l[..|l| - 1], shift) + PaidInShare(l[|l| - 1], shift)
  }

  /** How many of the payments frozen into a shift count as cash. */
  function CountIn(l: seq<Row>, shift: Uuid): nat {
    if l == [] then 0
    else
      CountIn(l[..|l| - 1], shift)
      + if l[|l| - 1].shift == Some(shift) && (l[|l| - 1].paidBy.None? || l[|l| - 1].paidBy == Some(CASH)) then 1 else 0
  }

  // ─── Shift rows ────────────────────────────────────────────────────────

  predicate IsOpenOf(h: Shift, tenant: Uuid) {
    h.tenant == tenant && h.status == OPEN
  }

  /** `findOne` by (tenant, status OPEN). */
  function FindOpen(shifts: seq<Shift>, tenant: Uuid): (r: Option<Shift>)
    ensures r.Some? ==> r.value in shifts && IsOpenOf(r.value, tenant)
    ensures r.None? ==> forall i | 0 <= i < |shifts| :: !IsOpenOf(shifts[i], tenant)
  {
    if shifts == [] then None
    else
      var last := shifts[|shifts| - 1];
      if IsOpenOf(last, tenant) then Some(last) else FindOpen(shifts[..|shifts| - 1], tenant)
  }

  /** `findOne` by (id, tenant, status OPEN). */
  function FindOpenById(shifts: seq<Shift>, tenant: Uuid, id: Uuid): (r: Option<Shift>)
    ensures r.Some? ==> r.value in shifts && IsOpenOf(r.value, tenant) && r.value.id == id
    ensures r.None? ==> forall i | 0 <= i < |shifts| :: !(IsOpenOf(shifts[i], tenant) && shifts[i].id == id)
  {
    if shifts == [] then None
    else
      var last := shifts[|shifts| - 1];
      if IsOpenOf(last, tenant) && last.id == id then Some(last) else FindOpenById(shifts[..|shifts| - 1], tenant, id)
  }

  /** `save(shift)`: the row with that id becomes `h`. */
  function SaveShift(shifts: seq<Shift>, h: Shift): (m: seq<Shift>)
    ensures |m| == |shifts|
    ensures forall i | 0 <= i < |shifts| :: m[i] == if shifts[i].id == h.id then h else shifts[i]
  {
    seq(|shifts|, i requires 0 <= i < |shifts| => if shifts[i].id == h.id then h else shifts[i])
  }

  predicate UniqueShifts(shifts: seq<Shift>) {
    forall i, j | 0 <= i < j < |shifts| :: shifts[i].id != shifts[j].id
  }

  // ─── Freezing moves the due sums into the shift ────────────────────────

  lemma TwoWaysToPay(r: Row)
    ensures r.paidBy == None || r.paidBy == Some(CASH) || r.paidBy == Some(TRANSFER)
  {
    match r.paidBy {
      case None =>
      case Some(way) => assert way == CASH || way == TRANSFER;
    }
  }

  /** Freezing into a new shift puts exactly the due cash and the due payments into it. */
  lemma {:induction false} FreezeCollects(l: seq<Row>, tenant: Uuid, openedAt: int, shift: Uuid)
    requires forall i | 0 <= i < |l| :: l[i].shift != Some(shift)
    ensures CashIn(Freeze(l, tenant, openedAt, shift), shift) == CashDue(l, tenant, openedAt)
    ensures PaidIn(Freeze(l, tenant, openedAt, shift), shift)
         == CashDue(l, tenant, openedAt) + TransferDue(l, tenant, openedAt)
    ensures CountIn(Freeze(l, tenant, openedAt, shift), shift) == CashCount(l, tenant, openedAt)
  {
    if l != [] {
      var n := |l| - 1;
      FreezeCollects(l[..n], tenant, openedAt, shift);
      TwoWaysToPay(l[n]);
      assert Freeze(l, tenant, openedAt, shift)[..n] == Freeze(l[..n], tenant, openedAt, shift);
    }
  }

  /** Rows that agree on shift, method and amount have the same frozen sums. */
  lemma {:induction false} FrozenSumsPointwise(l: seq<Row>, m: seq<Row>, shift: Uuid)
    requires |l| == |m|
    requires forall i | 0 <= i < |l| ::
      CashInShare(l[i], shift) == CashInShare(m[i], shift) && PaidInShare(l[i], shift) == PaidInShare(m[i], shift)
    ensures CashIn(l, shift) == CashIn(m, shift) && PaidIn(l, shift) == PaidIn(m, shift)
  {
    if l != [] {
      FrozenSumsPointwise(l[..|l| - 1], m[..|m| - 1], shift);
    }
  }

  /** Rows outside a shift leave its sums alone. */
  lemma {:induction false} FrozenSumsAppend(l: seq<Row>, more: seq<Row>, shift: Uuid)
    requires forall i | 0 <= i < |more| :: more[i].shift != Some(shift)
    ensures CashIn(l + more, shift) == CashIn(l, shift) && PaidIn(l + more, shift) == PaidIn(l, shift)
  {
    if more == [] {
      assert l + more == l;
    } else {
      var n := |more| - 1;
      assert (l + more)[..|l + more| - 1] == l + more[..n];
      FrozenSumsAppend(l, more[..n], shift);
    }
  }
}
