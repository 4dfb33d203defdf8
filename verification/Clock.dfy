/** Which payments a shift counts, by the clock alone. */
module Clock {
  import opened Domain
  import opened Ledger
  import opened Till
  import opened Engine
  import opened Invariants
  import opened Books
  import opened Cash

  /** A payment created strictly between the opening and the close of a shift of its tenant. */
  predicate Inside(h: Shift, r: Row) {
    && r.kind == PAYMENT && r.tenant == h.tenant
    && h.closedAt.Some? && h.openedAt < r.createdAt < h.closedAt.value
  }

  predicate Targets(v: Row, r: Row) {
    v.kind == REVERSAL && v.reverses == Some(r.id)
  }

  /** The row was reversed no later than `t`. */
  ghost predicate CancelledBy(l: seq<Row>, r: Row, t: int) {
    exists v :: 0 <= v < |l| && Targets(l[v], r) && l[v].createdAt <= t
  }

  /** The row was reversed before `t`. */
  ghost predicate CancelledBefore(l: seq<Row>, r: Row, t: int) {
    exists v :: 0 <= v < |l| && Targets(l[v], r) && l[v].createdAt < t
  }

  /** A frozen row was created in its shift's hours and not reversed before the close. */
  ghost predicate RightlyHeld(l: seq<Row>, h: Shift, r: Row) {
    && h.closedAt.Some? && h.openedAt < r.createdAt <= h.closedAt.value
    && !CancelledBefore(l, r, h.closedAt.value)
  }

  /** A row created in a shift's hours that the shift does not hold was reversed in time. */
  ghost predicate RightlyMissed(l: seq<Row>, h: Shift, r: Row) {
    h.closedAt.Some? && (r.shift == Some(h.id) || CancelledBy(l, r, h.closedAt.value))
  }

  ghost predicate InOrder(shifts: seq<Shift>) {
    forall i, j | 0 <= i < j < |shifts| && shifts[i].tenant == shifts[j].tenant ::
      shifts[i].status != OPEN && shifts[i].closedAt.Some? && shifts[i].closedAt.value <= shifts[j].openedAt
  }

  ghost predicate Timely(s: Store, now: int) {
    && (forall i | 0 <= i < |s.ledger| :: s.ledger[i].createdAt <= now)
    && (forall k | 0 <= k < |s.shifts| :: s.shifts[k].openedAt <= now)
    && (forall k | 0 <= k < |s.shifts| && s.shifts[k].closedAt.Some? :: s.shifts[k].closedAt.value <= now)
    && InOrder(s.shifts)
    && (forall k, i {:trigger HoldsRow(s.shifts[k], s.ledger[i])} |
          0 <= k < |s.shifts| && 0 <= i < |s.ledger| && HoldsRow(s.shifts[k], s.ledger[i]) ::
          RightlyHeld(s.ledger, s.shifts[k], s.ledger[i]))
    && (forall k, i {:trigger Inside(s.shifts[k], s.ledger[i])} |
          0 <= k < |s.shifts| && 0 <= i < |s.ledger| && Inside(s.shifts[k], s.ledger[i]) ::
          RightlyMissed(s.ledger, s.shifts[k], s.ledger[i]))
  }

  /** Every appended row carries the time of its request. */
  ghost predicate Stamped(s: Store, t: Store, now: int) {
    |s.ledger| <= |t.ledger| && forall i | |s.ledger| <= i < |t.ledger| :: t.ledger[i].createdAt == now
  }

  lemma PostingStamps(s: Store, e: Env)
    requires Inv(s) && WellFormed(s, e) && IsPosting(e.request)
    ensures Stamped(s, ApplyPosting(s, e).store, e.now)
  {
    hide Linked, Tidy, Owned, Semaphore, Sealed, Unique, Insertable, Decide;
    if ApplyPosting(s, e).store != s {
      DecideIsSound(e, s.customers[e.request.customer], s);
    }
  }

  lemma BatchStamps(s: Store, e: Env)
    requires WellFormed(s, e) && e.request.Inflate?
    ensures Stamped(s, ApplyInflate(s, e).store, e.now)
  {
    hide Insertable, InflatedCustomers;
    InflationRowsAreSound(e, s.customers, e.request.rate, e.request.slots);
  }

  lemma ReversalStamps(s: Store, e: Env)
    requires Inv(s) && e.request.Reverse?
    ensures Stamped(s, ApplyReverse(s, e).store, e.now)
  {
    hide Linked, Tidy, Owned, Solvent, Semaphore, Sealed, Insertable;
    if ApplyReverse(s, e).store != s {
      var o := ReverseShape(s, e);
    }
  }

  lemma OthersStamp(s: Store, e: Env)
    requires !IsPosting(e.request) && !e.request.Inflate? && !e.request.Reverse?
    ensures Stamped(s, Apply(s, e).store, e.now)
  {
  }

  lemma StepStamps(s: Store, e: Env)
    requires Inv(s) && WellFormed(s, e)
    ensures Stamped(s, Apply(s, e).store, e.now)
  {
    hide Inv, WellFormed, Stamped, ApplyPosting, ApplyInflate, ApplyReverse;
    if IsPosting(e.request) {
      PostingStamps(s, e);
    } else if e.request.Inflate? {
      BatchStamps(s, e);
    } else if e.request.Reverse? {
      ReversalStamps(s, e);
    } else {
      OthersStamp(s, e);
    }
  }

  /** Rows of `l` are cancelled in `m` as in `l`, up to rows stamped `now` or later. */
  lemma CancellationsCarryOver(l: seq<Row>, m: seq<Row>, r: Row, r': Row, t: int)
    requires Grows(l, m) && r'.id == r.id
    requires forall i | |l| <= i < |m| :: t <= m[i].createdAt
    ensures CancelledBy(l, r, t) ==> CancelledBy(m, r', t)
    ensures CancelledBefore(m, r', t) ==> CancelledBefore(l, r, t)
  {
    if CancelledBy(l, r, t) {
      var v :| 0 <= v < |l| && Targets(l[v], r) && l[v].createdAt <= t;
      assert Evolves(l[v], m[v]);
      assert Targets(m[v], r');
    }
    if CancelledBefore(m, r', t) {
      var v :| 0 <= v < |m| && Targets(m[v], r') && m[v].createdAt < t;
      assert v < |l|;
      assert Evolves(l[v], m[v]);
      assert Targets(l[v], r);
    }
  }

  /** A closed shift is judged in `m` as in `l` once only later rows were added. */
  lemma JudgementCarriesOver(s: Store, t: Store, now: int, k: nat, i: nat)
    requires Timely(s, now) && Grows(s.ledger, t.ledger) && Stamped(s, t, now)
    requires k < |s.shifts| && i < |t.ledger| && s.shifts[k].closedAt.Some? && s.shifts[k].status != OPEN
    requires i < |s.ledger| ==>
      (t.ledger[i].shift == Some(s.shifts[k].id) <==> s.ledger[i].shift == Some(s.shifts[k].id))
    requires i >= |s.ledger| ==> t.ledger[i].shift.None?
    ensures HoldsRow(s.shifts[k], t.ledger[i]) ==> RightlyHeld(t.ledger, s.shifts[k], t.ledger[i])
    ensures Inside(s.shifts[k], t.ledger[i]) ==> RightlyMissed(t.ledger, s.shifts[k], t.ledger[i])
  {
    var h := s.shifts[k];
    if i < |s.ledger| {
      var r, r' := s.ledger[i], t.ledger[i];
      assert Evolves(r, r');
      CancellationsCarryOver(s.ledger, t.ledger, r, r', h.closedAt.value);
      if HoldsRow(h, r') {
        assert HoldsRow(h, r);
        assert RightlyHeld(s.ledger, h, r);
      }
      if Inside(h, r') {
        assert Inside(h, r);
        assert RightlyMissed(s.ledger, h, r);
      }
    }
  }

  lemma QuietKeepsTimely(s: Store, t: Store, before: int, now: int)
    requires Inv(s) && Timely(s, before) && before <= now
    requires Quiet(s, t) && Stamped(s, t, now)
    requires InOrder(t.shifts)
    requires forall k | |s.shifts| <= k < |t.shifts| :: t.shifts[k].status == OPEN && t.shifts[k].closedAt.None?
    requires forall k | |s.shifts| <= k < |t.shifts| :: t.shifts[k].openedAt <= now
    ensures Timely(t, now)
  {
    assert Timely(s, now);
    forall i | 0 <= i < |t.ledger| ensures t.ledger[i].createdAt <= now {
      if i < |s.ledger| {
        assert Evolves(s.ledger[i], t.ledger[i]);
      }
    }
    forall k, i | 0 <= k < |t.shifts| && 0 <= i < |t.ledger|
      ensures HoldsRow(t.shifts[k], t.ledger[i]) ==> RightlyHeld(t.ledger, t.shifts[k], t.ledger[i])
      ensures Inside(t.shifts[k], t.ledger[i]) ==> RightlyMissed(t.ledger, t.shifts[k], t.ledger[i])
    {
      if k < |s.shifts| && s.shifts[k].closedAt.Some? {
        assert t.shifts[k] == s.shifts[k];
        JudgementCarriesOver(s, t, now, k, i);
      } else if k < |s.shifts| {
        assert t.shifts[k] == s.shifts[k];
        assert s.shifts[k].status != OPEN ==> Accounted(s.shifts[k], s.ledger);
      }
    }
  }

  lemma OpenKeepsOrder(s: Store, e: Env, before: int)
    requires Inv(s) && e.request.OpenTurn? && Timely(s, before) && before <= e.now
    ensures InOrder(ApplyOpen(s, e).store.shifts)
  {
    var t := ApplyOpen(s, e).store;
    forall i, j | 0 <= i < j < |t.shifts| && t.shifts[i].tenant == t.shifts[j].tenant
      ensures t.shifts[i].status != OPEN && t.shifts[i].closedAt.Some?
        && t.shifts[i].closedAt.value <= t.shifts[j].openedAt
    {
      if j == |s.shifts| {
        assert s.shifts[i].status != OPEN;
        assert Accounted(s.shifts[i], s.ledger);
      }
    }
  }

  /** A live row is not the target of any reversal. */
  lemma LiveIsUntouched(l: seq<Row>, i: nat)
    requires Unique(l) && Linked(l) && i < |l| && !l[i].reversed
    ensures forall v | 0 <= v < |l| :: !Targets(l[v], l[i])
  {
    forall v | 0 <= v < |l| ensures !Targets(l[v], l[i]) {
      assert forall a, b | 0 <= a < b < |l| :: !Clash(l[a], l[b]);
      NotYetUndone(l, i, v);
    }
  }

  /** The shift being closed holds its due rows rightly and misses only cancelled ones. */
  lemma ClosingIsRight(s: Store, e: Env, before: int, k: nat, i: nat)
    requires Inv(s) && Timely(s, before) && before <= e.now && e.request.CloseTurn?
    requires k < |s.shifts| && IsOpenOf(s.shifts[k], e.tenant) && i < |s.ledger|
    requires var h := s.shifts[k];
             ApplyClose(s, e).store.ledger == Freeze(s.ledger, e.tenant, h.openedAt, h.id)
    ensures var h, m := s.shifts[k].(closedAt := Some(e.now), status := CLOSED_OK), ApplyClose(s, e).store.ledger;
            && (m[i].shift == Some(h.id) ==> RightlyHeld(m, h, m[i]))
            && (Inside(h, m[i]) ==> RightlyMissed(m, h, m[i]))
  {
    hide Tidy, Owned, Solvent, Semaphore, ApplyClose;
    var l, m, h := s.ledger, ApplyClose(s, e).store.ledger, s.shifts[k];
    OpenShiftIsEmpty(l, s.shifts, k);
    assert Grows(l, m);
    CancellationsCarryOver(l, m, l[i], m[i], e.now);
    if m[i] != l[i] {
      LiveIsUntouched(l, i);
      assert !CancelledBefore(l, l[i], e.now);
    } else if l[i].shift.Some? {
      var j :| 0 <= j < |s.shifts| && HoldsRow(s.shifts[j], l[i]);
      assert RightlyHeld(l, s.shifts[j], l[i]);
      assert j != k;
    } else if l[i].reversed {
      assert HasReversal(l, i);
      var v :| i < v < |l| && Undoes(l[v], l[i]);
      assert Targets(l[v], l[i]) && l[v].createdAt <= e.now;
      assert CancelledBy(l, l[i], e.now);
    }
  }

  /** Each shift after a close, the one just closed or any other, against each row. */
  lemma CloseJudgesRightly(s: Store, e: Env, before: int, k: nat, j: nat, i: nat)
    requires Inv(s) && Timely(s, before) && before <= e.now && e.request.CloseTurn?
    requires k < |s.shifts| && IsOpenOf(s.shifts[k], e.tenant) && j < |s.shifts| && i < |s.ledger|
    requires var t, h := ApplyClose(s, e).store, s.shifts[k];
             && t.ledger == Freeze(s.ledger, e.tenant, h.openedAt, h.id)
             && t.shifts == s.shifts[k := t.shifts[k]]
             && t.shifts[k]
                 == h.(closedAt := Some(e.now), expected := t.shifts[k].expected, actual := t.shifts[k].actual,
                                  discrepancy := t.shifts[k].discrepancy, note := t.shifts[k].note,
                                  status := t.shifts[k].status)
    ensures var t := ApplyClose(s, e).store;
            && (HoldsRow(t.shifts[j], t.ledger[i]) ==> RightlyHeld(t.ledger, t.shifts[j], t.ledger[i]))
            && (Inside(t.shifts[j], t.ledger[i]) ==> RightlyMissed(t.ledger, t.shifts[j], t.ledger[i]))
  {
    var t := ApplyClose(s, e).store;
    if j == k {
      ClosingIsRight(s, e, before, k, i);
    } else {
      assert t.shifts[j] == s.shifts[j] && s.shifts[j].id != s.shifts[k].id;
      if s.shifts[j].closedAt.Some? {
        JudgementCarriesOver(s, t, e.now, j, i);
      } else {
        assert s.shifts[j].status != OPEN ==> Accounted(s.shifts[j], s.ledger);
      }
    }
  }

  lemma CloseKeepsOrder(shifts: seq<Shift>, k: nat, closed: Shift, now: int)
    requires InOrder(shifts) && k < |shifts| && shifts[k].status == OPEN
    requires closed.tenant == shifts[k].tenant && closed.openedAt == shifts[k].openedAt
    ensures InOrder(shifts[k := closed])
  {
  }

  lemma CloseKeepsTimely(s: Store, e: Env, before: int)
    requires Inv(s) && e.request.CloseTurn? && Timely(s, before) && before <= e.now
    ensures Timely(ApplyClose(s, e).store, e.now)
  {
    hide Linked, Tidy, Owned, Solvent, Semaphore, Accounted, HoldsRow, Inside, RightlyHeld, RightlyMissed;
    var t := ApplyClose(s, e).store;
    if t != s {
      var k := CloseShape(s, e);
      var m := t.ledger;
      forall j, i | 0 <= j < |t.shifts| && 0 <= i < |m|
        ensures HoldsRow(t.shifts[j], m[i]) ==> RightlyHeld(m, t.shifts[j], m[i])
        ensures Inside(t.shifts[j], m[i]) ==> RightlyMissed(m, t.shifts[j], m[i])
      {
        CloseJudgesRightly(s, e, before, k, j, i);
      }
      assert forall i | 0 <= i < |m| :: m[i].createdAt == s.ledger[i].createdAt;
      CloseKeepsOrder(s.shifts, k, t.shifts[k], e.now);
    }
  }

  lemma ShiftsStay(s: Store, e: Env)
    requires !e.request.OpenTurn? && !e.request.CloseTurn?
    ensures Apply(s, e).store.shifts == s.shifts
  {
  }

  lemma StepKeepsTimely(s: Store, e: Env, before: int)
    requires Inv(s) && WellFormed(s, e) && Timely(s, before) && before <= e.now
    ensures Timely(Apply(s, e).store, e.now)
  {
    hide Inv, WellFormed, Quiet, Stamped, ApplyPosting, ApplyReverse, ApplyInflate, ApplyMerge, ApplyCreate;
    if e.request.CloseTurn? {
      CloseKeepsTimely(s, e, before);
    } else {
      var t := Apply(s, e).store;
      StepIsQuiet(s, e);
      StepStamps(s, e);
      if e.request.OpenTurn? {
        OpenKeepsOrder(s, e, before);
      } else {
        ShiftsStay(s, e);
      }
      QuietKeepsTimely(s, t, before, e.now);
    }
  }

  /** The clock never runs backwards. */
  predicate Monotone(es: seq<Env>, start: int) {
    && (forall i | 0 <= i < |es| :: start <= es[i].now)
    && (forall i, j | 0 <= i < j < |es| :: es[i].now <= es[j].now)
  }

  function LastInstant(es: seq<Env>, start: int): int {
    if es == [] then start else es[|es| - 1].now
  }

  lemma {:induction false} RunKeepsTimely(s: Store, es: seq<Env>, start: int)
    requires Inv(s) && WellFormedRun(s, es) && Timely(s, start) && Monotone(es, start)
    ensures Timely(Run(s, es), LastInstant(es, start))
  {
    if es != [] {
      var n := |es| - 1;
      RunKeepsTimely(s, es[..n], start);
      RunKeepsInv(s, es[..n]);
      StepKeepsTimely(Run(s, es[..n]), es[n], LastInstant(es[..n], start));
    }
  }

  /** Under a clock that never runs backwards a closed shift holds only payments created after
      its opening, up to its close, and not reversed before it; and it holds all of those
      created strictly between and not reversed by its close. */
  lemma ShiftCountsItsHours(s: Store, es: seq<Env>, start: int, k: nat, i: nat)
    requires Inv(s) && WellFormedRun(s, es) && Timely(s, start) && Monotone(es, start)
    requires var t := Run(s, es); k < |t.shifts| && t.shifts[k].status != OPEN && i < |t.ledger|
    ensures var t := Run(s, es);
            var h, r := t.shifts[k], t.ledger[i];
            && h.closedAt.Some?
            && (r.shift == Some(h.id) ==>
                  && r.kind == PAYMENT && r.tenant == h.tenant && h.openedAt < r.createdAt <= h.closedAt.value
                  && !CancelledBefore(t.ledger, r, h.closedAt.value))
            && (Inside(h, r) && !CancelledBy(t.ledger, r, h.closedAt.value) ==> r.shift == Some(h.id))
  {
    RunKeepsTimely(s, es, start);
    RunKeepsInv(s, es);
    var t := Run(s, es);
    var h, r := t.shifts[k], t.ledger[i];
    assert Accounted(h, t.ledger);
    if r.shift == Some(h.id) {
      HeldByClosed(t.ledger, t.shifts, i, k);
      assert RightlyHeld(t.ledger, h, r);
    }
    if Inside(h, r) {
      assert RightlyMissed(t.ledger, h, r);
    }
  }

  lemma NoTieNoDoubt(l: seq<Row>, r: Row, t: int)
    requires forall v | 0 <= v < |l| :: l[v].createdAt != t
    ensures CancelledBy(l, r, t) <==> CancelledBefore(l, r, t)
  {
    if CancelledBy(l, r, t) {
      var v :| 0 <= v < |l| && Targets(l[v], r) && l[v].createdAt <= t;
      assert Targets(l[v], r) && l[v].createdAt < t;
    }
    if CancelledBefore(l, r, t) {
      var v :| 0 <= v < |l| && Targets(l[v], r) && l[v].createdAt < t;
      assert Targets(l[v], r) && l[v].createdAt <= t;
    }
  }

  /** Where no row carries the very instant of the close, a shift counts a payment if and only
      if it was created in its hours and not reversed by its close. */
  lemma ShiftCountsExactly(s: Store, es: seq<Env>, start: int, k: nat, i: nat)
    requires Inv(s) && WellFormedRun(s, es) && Timely(s, start) && Monotone(es, start)
    requires var t := Run(s, es); k < |t.shifts| && t.shifts[k].status != OPEN && i < |t.ledger|
    requires var t := Run(s, es);
             forall v | 0 <= v < |t.ledger| :: Some(t.ledger[v].createdAt) != t.shifts[k].closedAt
    ensures var t := Run(s, es);
            var h, r := t.shifts[k], t.ledger[i];
            && h.closedAt.Some?
            && (r.shift == Some(h.id) <==> Inside(h, r) && !CancelledBy(t.ledger, r, h.closedAt.value))
  {
    ShiftCountsItsHours(s, es, start, k, i);
    var t := Run(s, es);
    assert Some(t.ledger[i].createdAt) != t.shifts[k].closedAt;
    NoTieNoDoubt(t.ledger, t.ledger[i], t.shifts[k].closedAt.value);
  }
}
