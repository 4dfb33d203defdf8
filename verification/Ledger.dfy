/** The transaction table: lookups, the three UPDATE statements, and sums over rows. */
module Ledger {
  import opened Domain

  // ─── Lookups ───────────────────────────────────────────────────────────

  /** `findOne` by (tenant, idempotency key). */
  function FindKey(l: seq<Row>, tenant: Uuid, key: Uuid): (r: Option<Row>)
    ensures r.Some? ==> r.value in l && r.value.tenant == tenant && r.value.key == key
    ensures r.None? ==> forall i | 0 <= i < |l| :: !(l[i].tenant == tenant && l[i].key == key)
  {
    if l == [] then None
    else
      var last := l[|l| - 1];
      if last.tenant == tenant && last.key == key then Some(last) else FindKey(l[..|l| - 1], tenant, key)
  }

  /** `findOne` by (id, tenant). */
  function FindTx(l: seq<Row>, tenant: Uuid, id: Uuid): (r: Option<Row>)
    ensures r.Some? ==> r.value in l && r.value.tenant == tenant && r.value.id == id
    ensures r.None? ==> forall i | 0 <= i < |l| :: !(l[i].tenant == tenant && l[i].id == id)
  {
    if l == [] then None
    else
      var last := l[|l| - 1];
      if last.tenant == tenant && last.id == id then Some(last) else FindTx(l[..|l| - 1], tenant, id)
  }

  /** The row of a payment group with the given method; the lookup has no tenant filter. */
  function FindInGroup(l: seq<Row>, group: Uuid, paidBy: PaymentMethod): (r: Option<Row>)
    ensures r.Some? ==> r.value in l && r.value.group == Some(group) && r.value.paidBy == Some(paidBy)
    ensures r.None? ==> forall i | 0 <= i < |l| :: !(l[i].group == Some(group) && l[i].paidBy == Some(paidBy))
  {
    if l == [] then None
    else
      var last := l[|l| - 1];
      if last.group == Some(group) && last.paidBy == Some(paidBy) then Some(last)
      else FindInGroup(l[..|l| - 1], group, paidBy)
  }

  /** The row with the given id, as the statement page finds it in a list. */
  function FindId(l: seq<Row>, id: Uuid): (r: Option<Row>)
    ensures r.Some? ==> r.value in l && r.value.id == id
    ensures r.None? ==> forall i | 0 <= i < |l| :: l[i].id != id
  {
    if l == [] then None
    else
      var last := l[|l| - 1];
      if last.id == id then Some(last) else FindId(l[..|l| - 1], id)
  }

  // ─── Unique indexes ────────────────────────────────────────────────────

  /** Two rows that the primary key or UNIQUE(tenant_id, idempotency_key) keeps apart. */
  predicate Clash(a: Row, b: Row) {
    a.id == b.id || (a.tenant == b.tenant && a.key == b.key)
  }

  predicate Unique(l: seq<Row>) {
    forall i, j | 0 <= i < j < |l| :: !Clash(l[i], l[j])
  }

  /** The database accepts the rows, inserted one after the other. */
  predicate Insertable(l: seq<Row>, rows: seq<Row>) {
    && (forall i | 0 <= i < |rows| :: Int4(rows[i].amount))
    && (forall i, j | 0 <= i < |l| && 0 <= j < |rows| :: !Clash(l[i], rows[j]))
    && Unique(rows)
  }

  lemma InsertKeepsUnique(l: seq<Row>, rows: seq<Row>)
    requires Unique(l) && Insertable(l, rows)
    ensures Unique(l + rows)
  {
  }

  /** Inserting one row after the others is inserting them all. */
  lemma InsertOneMore(l: seq<Row>, rows: seq<Row>, row: Row)
    ensures Insertable(l, rows + [row]) <==> Insertable(l, rows) && Insertable(l + rows, [row])
  {
    var all := rows + [row];
    if Insertable(l, rows) && Insertable(l + rows, [row]) {
      forall i, j | 0 <= i < |l| && 0 <= j < |all| ensures !Clash(l[i], all[j]) {
        assert (l + rows)[i] == l[i];
      }
      forall i, j | 0 <= i < j < |all| ensures !Clash(all[i], all[j]) {
        assert (l + rows)[|l| + i] == all[i] || i == |rows|;
      }
    }
    if Insertable(l, all) {
      forall i, j | 0 <= i < |l| && 0 <= j < |rows| ensures !Clash(l[i], rows[j]) {
        assert all[j] == rows[j];
      }
      forall i | 0 <= i < |l + rows| ensures !Clash((l + rows)[i], [row][0]) {
        assert all[|rows|] == row;
        if i < |l| {
          assert !Clash(l[i], all[|rows|]);
        } else {
          assert !Clash(all[i - |l|], all[|rows|]);
        }
      }
      assert forall i | 0 <= i < |rows| :: all[i] == rows[i];
      assert Int4(all[|rows|].amount);
    }
  }

  lemma SameRow(l: seq<Row>, i: nat, j: nat)
    requires Unique(l) && i < |l| && j < |l| && Clash(l[i], l[j])
    ensures i == j
  {
  }

  lemma FindIdUnique(l: seq<Row>, i: nat)
    requires Unique(l) && i < |l|
    ensures FindId(l, l[i].id) == Some(l[i])
  {
  }

  // ─── UPDATE statements ─────────────────────────────────────────────────

  /** `original.is_reversed = true; save(original)`. */
  function MarkReversed(l: seq<Row>, id: Uuid): (m: seq<Row>)
    ensures |m| == |l|
    ensures forall i | 0 <= i < |l| :: m[i] == if l[i].id == id then l[i].(reversed := true) else l[i]
  {
    seq(|l|, i requires 0 <= i < |l| => if l[i].id == id then l[i].(reversed := true) else l[i])
  }

  /** Moves the rows of one customer to another. */
  function MoveRows(l: seq<Row>, tenant: Uuid, from: Uuid, to: Uuid): (m: seq<Row>)
    ensures |m| == |l|
    ensures forall i | 0 <= i < |l| ::
      m[i] == if l[i].customer == from && l[i].tenant == tenant then l[i].(customer := to) else l[i]
  {
    seq(|l|, i requires 0 <= i < |l| =>
      if l[i].customer == from && l[i].tenant == tenant then l[i].(customer := to) else l[i])
  }

  /** A payment that an open shift still has to account for. */
  predicate Pending(r: Row, tenant: Uuid, openedAt: int) {
    r.tenant == tenant && r.kind == PAYMENT && r.createdAt > openedAt && !r.reversed && r.shift.None?
  }

  /** Freezes the pending payments of a shift into it. */
  function Freeze(l: seq<Row>, tenant: Uuid, openedAt: int, shift: Uuid): (m: seq<Row>)
    ensures |m| == |l|
    ensures forall i | 0 <= i < |l| ::
      m[i] == if Pending(l[i], tenant, openedAt) then l[i].(shift := Some(shift)) else l[i]
  {
    seq(|l|, i requires 0 <= i < |l| =>
      if Pending(l[i], tenant, openedAt) then l[i].(shift := Some(shift)) else l[i])
  }

  // ─── Immutability ──────────────────────────────────────────────────────

  /** What may happen to a row after it is inserted: it changes owner in a merge, it is
      reversed once and for all, it is frozen into one shift for ever. */
  predicate Evolves(a: Row, b: Row) {
    && b == a.(customer := b.customer, reversed := b.reversed, shift := b.shift)
    && (a.reversed ==> b.reversed)
    && (a.shift.Some? ==> b.shift == a.shift)
  }

  /** `later` holds every row of `l`, in place, only evolved. */
  predicate Grows(l: seq<Row>, later: seq<Row>) {
    |l| <= |later| && forall i | 0 <= i < |l| :: Evolves(l[i], later[i])
  }

  lemma GrowsTransitive(a: seq<Row>, b: seq<Row>, c: seq<Row>)
    requires Grows(a, b) && Grows(b, c)
    ensures Grows(a, c)
  {
    forall i | 0 <= i < |a| ensures Evolves(a[i], c[i]) {
      assert Evolves(a[i], b[i]) && Evolves(b[i], c[i]);
    }
  }

  // ─── Signed amounts and balances ───────────────────────────────────────

  predicate IncreasesDebt(kind: TxType) {
    kind == DEBT || kind == INFLATION_ADJUSTMENT
  }

  /** What posting the row did to its customer's balance, before any clamp. A reversal
      counts by the type of its original. */
  function Signed(r: Row, l: seq<Row>): int {
    if r.kind == REVERSAL then
      if r.reverses.Some? && FindId(l, r.reverses.value).Some? && IncreasesDebt(FindId(l, r.reverses.value).value.kind)
      then -r.amount else r.amount
    else if IncreasesDebt(r.kind) then r.amount else -r.amount
  }

  function Contribution(r: Row, l: seq<Row>, c: Uuid): int {
    if r.customer == c then Signed(r, l) else 0
  }

  /** The signed sum of a customer's rows in `rows`, originals looked up in `l`. */
  function Net(rows: seq<Row>, l: seq<Row>, c: Uuid): int {
    if rows == [] then 0 else Net(rows[..|rows| - 1], l, c) + Contribution(rows[|rows| - 1], l, c)
  }

  function LiveShare(r: Row, c: Uuid): int {
    if r.customer == c && !r.reversed && r.kind != REVERSAL then
      if IncreasesDebt(r.kind) then r.amount else -r.amount
    else 0
  }

  /** The same books read from live rows alone: neither reversed nor reversals. */
  function Live(rows: seq<Row>, c: Uuid): int {
    if rows == [] then 0 else Live(rows[..|rows| - 1], c) + LiveShare(rows[|rows| - 1], c)
  }

  function ReReversedShare(r: Row, c: Uuid): int {
    if r.customer == c && r.reversed && r.kind == REVERSAL then r.amount else 0
  }

  /** The amounts of a customer's reversals that were themselves reversed. */
  function ReReversed(rows: seq<Row>, c: Uuid): int {
    if rows == [] then 0 else ReReversed(rows[..|rows| - 1], c) + ReReversedShare(rows[|rows| - 1], c)
  }

  lemma {:induction false} NetAppend(rows: seq<Row>, more: seq<Row>, l: seq<Row>, c: Uuid)
    ensures Net(rows + more, l, c) == Net(rows, l, c) + Net(more, l, c)
  {
    if more == [] {
      assert rows + more == rows;
    } else {
      var n := |more| - 1;
      assert (rows + more)[..|rows + more| - 1] == rows + more[..n];
      NetAppend(rows, more[..n], l, c);
    }
  }

  /** Rows that carry the same share carry the same sum. */
  lemma {:induction false} NetPointwise(rows: seq<Row>, l: seq<Row>, rows': seq<Row>, l': seq<Row>, c: Uuid)
    requires |rows| == |rows'|
    requires forall i | 0 <= i < |rows| :: Contribution(rows[i], l, c) == Contribution(rows'[i], l', c)
    ensures Net(rows, l, c) == Net(rows', l', c)
  {
    if rows != [] {
      var n := |rows| - 1;
      NetPointwise(rows[..n], l, rows'[..n], l', c);
    }
  }

  lemma {:induction false} NetJoin(rows: seq<Row>, l: seq<Row>, rows': seq<Row>, l': seq<Row>, a: Uuid, b: Uuid)
    requires |rows| == |rows'|
    requires forall i | 0 <= i < |rows| ::
      Contribution(rows'[i], l', a) == Contribution(rows[i], l, a) + Contribution(rows[i], l, b)
    ensures Net(rows', l', a) == Net(rows, l, a) + Net(rows, l, b)
  {
    if rows != [] {
      var n := |rows| - 1;
      NetJoin(rows[..n], l, rows'[..n], l', a, b);
    }
  }

  lemma {:induction false} NetZero(rows: seq<Row>, l: seq<Row>, c: Uuid)
    requires forall i | 0 <= i < |rows| :: rows[i].customer != c
    ensures Net(rows, l, c) == 0
  {
    if rows != [] {
      NetZero(rows[..|rows| - 1], l, c);
    }
  }

  /** A row keeps its sign as the ledger grows, once its original is in the ledger. */
  lemma SignedStable(r: Row, r': Row, l: seq<Row>, l': seq<Row>)
    requires Unique(l') && Grows(l, l') && Evolves(r, r')
    requires r.kind == REVERSAL ==> r.reverses.Some? && exists j | 0 <= j < |l| :: l[j].id == r.reverses.value
    ensures Signed(r, l) == Signed(r', l')
  {
    if r.kind == REVERSAL {
      var id := r.reverses.value;
      var o := FindId(l, id);
      var j :| 0 <= j < |l| && l[j].id == id;
      assert o.Some?;
      var k :| 0 <= k < |l| && l[k] == o.value;
      assert Evolves(l[k], l'[k]);
      FindIdUnique(l', k);
    }
  }
}
