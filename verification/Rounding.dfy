/** The two rounding kernels: prorating a mixed payment and the inflation surcharge. */
module Rounding {
  import opened Domain

  /** JavaScript's Math.round: halves go up. */
  function JsRound(x: real): (n: int)
    ensures x - 0.5 < n as real <= x + 0.5
  {
    (x + 0.5).Floor
  }

  /** The exact part of `part` out of `total` when only `effective` is taken. */
  function Share(part: int, effective: int, total: int): real
    requires total > 0
  {
    part as real * effective as real / total as real
  }

  /** The cash and transfer rows of a mixed payment over a debt of `balance`. */
  function Prorate(total: int, cash: int, transfer: int, balance: int, drift: real): (int, int)
    requires balance > 0
  {
    var effective := Min(total, balance);
    if effective < total then
      var cashPart := JsRound(Share(cash, effective, total) + drift);
      (cashPart, effective - cashPart)
    else
      (cash, transfer)
  }

  lemma ScaleLess(x: real, y: real, n: real)
    requires n > 0.0 && x < y
    ensures x * n < y * n
  {
  }

  lemma ShareBounds(part: int, effective: int, total: int)
    requires 0 <= part && 0 < effective < total
    ensures 0.0 <= Share(part, effective, total) <= part as real
  {
    var a, b, n := part as real, effective as real, total as real;
    var q := Share(part, effective, total);
    assert q * n == a * b;
    assert 0.0 <= a * b;
    assert a * b <= a * n by {
      assert a * (n - b) >= 0.0;
    }
    if q > a {
      ScaleLess(a, q, n);
    }
    if q < 0.0 {
      ScaleLess(q, 0.0, n);
    }
  }

  lemma SharesAddUp(cash: int, transfer: int, effective: int)
    requires cash + transfer > 0
    ensures Share(cash, effective, cash + transfer) + Share(transfer, effective, cash + transfer) == effective as real
  {
    var a, b, e := cash as real, transfer as real, effective as real;
    assert a * e + b * e == (a + b) * e;
  }

  /** Whatever error below half a cent the floating-point product carries, both rows are
      non-negative, neither exceeds what was offered, and they add up to min(total, debt). */
  lemma ProrateSplitsExactly(total: int, cash: int, transfer: int, balance: int, drift: real)
    requires 0 < cash && 0 < transfer && cash + transfer == total
    requires balance > 0
    requires -0.5 < drift < 0.5
    ensures var (c, t) := Prorate(total, cash, transfer, balance, drift);
            && 0 <= c <= cash
            && 0 <= t <= transfer
            && c + t == Min(total, balance)
  {
    var effective := Min(total, balance);
    if effective < total {
      var exact, rest := Share(cash, effective, total), Share(transfer, effective, total);
      ShareBounds(cash, effective, total);
      ShareBounds(transfer, effective, total);
      SharesAddUp(cash, transfer, effective);
      var c := JsRound(exact + drift);
      assert Prorate(total, cash, transfer, balance, drift) == (c, effective - c);
      assert c as real < exact + 1.0 <= (cash + 1) as real;
      assert c as real > exact - 1.0 >= (effective - transfer - 1) as real;
      assert -1.0 < c as real < (effective + 1) as real;
    }
  }

  /** With an exact product the cash row is the integer nearest to the exact share. */
  lemma ProrateIsNearest(total: int, cash: int, transfer: int, balance: int)
    requires 0 < cash && 0 < transfer && cash + transfer == total
    requires 0 < balance < total
    ensures var (c, t) := Prorate(total, cash, transfer, balance, 0.0);
            -0.5 <= c as real - Share(cash, balance, total) <= 0.5
  {
    var share := Share(cash, balance, total);
    assert share + 0.0 == share;
  }

  /** Entity comments promise strictly positive amounts; a prorated row can be zero. */
  lemma ProratedRowCanBeZero()
    ensures Prorate(1001, 1, 1000, 1, 0.0).0 == 0
  {
    assert Share(1, 1, 1001) < 0.5;
  }

  lemma ScaleLike(x: real, y: real, n: real)
    requires n > 0.0
    ensures x >= y <==> x * n >= y * n
  {
    if x < y {
      ScaleLess(x, y, n);
    } else if x > y {
      ScaleLess(y, x, n);
    }
  }

  lemma Quotient(x: real, n: real)
    requires n > 0.0
    ensures (x / n) * n == x
  {
  }

  /** How far twice the product of a part and the debt lies above the total: half a cent is due to
      the part where this is zero. */
  function Edge(part: int, balance: int, total: int): int {
    2 * (part * balance) - total
  }

  /** How far an error of the product moves that edge. */
  function Sway(drift: real, total: int): real {
    2.0 * (drift * total as real)
  }

  lemma EdgeIsHalfCent(product: int, total: int, drift: real)
    requires total > 0
    ensures product as real / total as real + drift >= 0.5 <==>
      (2 * product - total) as real + Sway(drift, total) >= 0.0
  {
    var q, n := product as real / total as real, total as real;
    Quotient(product as real, n);
    ScaleLike(q + drift, 0.5, n);
    assert (q + drift) * n == q * n + drift * n;
    assert (2 * product - total) as real == 2.0 * product as real - n;
  }

  lemma EdgeIsOverHalfCent(product: int, total: int, drift: real)
    requires total > 0
    ensures product as real / total as real - drift > 0.5 <==> (2 * product - total) as real - Sway(drift, total) > 0.0
  {
    var q, n := product as real / total as real, total as real;
    Quotient(product as real, n);
    ScaleLike(0.5, q - drift, n);
    assert (q - drift) * n == q * n - drift * n;
    assert (2 * product - total) as real == 2.0 * product as real - n;
  }

  /** The rows of a prorated payment are positive exactly when the product, its error included,
      leaves half a cent for the cash row and more than half a cent for the transfer row. */
  lemma ProratedRowsByDrift(total: int, cash: int, transfer: int, balance: int, drift: real)
    requires 0 < cash && 0 < transfer && cash + transfer == total
    requires 0 < balance < total
    ensures var (c, t) := Prorate(total, cash, transfer, balance, drift);
            && (c > 0 <==> Edge(cash, balance, total) as real + Sway(drift, total) >= 0.0)
            && (t > 0 <==> Edge(transfer, balance, total) as real - Sway(drift, total) > 0.0)
  {
    hide Sway;
    var share, rest := Share(cash, balance, total), Share(transfer, balance, total);
    assert share == (cash * balance) as real / total as real;
    assert rest == (transfer * balance) as real / total as real;
    EdgeIsHalfCent(cash * balance, total, drift);
    EdgeIsOverHalfCent(transfer * balance, total, drift);
    SharesAddUp(cash, transfer, balance);
  }

  lemma SwayHasSign(drift: real, total: int)
    requires total > 0
    ensures drift >= 0.0 <==> Sway(drift, total) >= 0.0
  {
    ScaleLike(drift, 0.0, total as real);
  }

  lemma SwayIsMonotone(a: real, b: real, total: int)
    requires total > 0 && a <= b
    ensures Sway(a, total) <= Sway(b, total)
  {
    ScaleLike(b, a, total as real);
  }

  lemma SwayOfNegative(drift: real, total: int)
    ensures Sway(-drift, total) == -Sway(drift, total)
  {
    assert -drift * total as real == -(drift * total as real);
  }

  /** Amounts are documented as always positive. Where the product's error is too small to carry
      it across a tie, a prorated row is positive if and only if its part lies above the edge, or
      on it with the error falling on its side. */
  lemma ProratedRowsArePositiveExactly(total: int, cash: int, transfer: int, balance: int, drift: real)
    requires 0 < cash && 0 < transfer && cash + transfer == total
    requires 0 < balance < total && -1.0 < Sway(drift, total) < 1.0
    ensures var (c, t) := Prorate(total, cash, transfer, balance, drift);
            && (c > 0 <==> Edge(cash, balance, total) > 0 || (Edge(cash, balance, total) == 0 && drift >= 0.0))
            && (t > 0 <==> Edge(transfer, balance, total) > 0 || (Edge(transfer, balance, total) == 0 && drift < 0.0))
  {
    hide Sway, Prorate, Edge;
    ProratedRowsByDrift(total, cash, transfer, balance, drift);
    SwayHasSign(drift, total);
  }

  predicate BothPositive(rows: (int, int)) {
    rows.0 > 0 && rows.1 > 0
  }

  /** Both parts lie above the edge by more than an error of `slack` can take away. */
  predicate Clears(total: int, cash: int, transfer: int, balance: int, slack: real) {
    && Edge(cash, balance, total) as real >= Sway(slack, total)
    && Edge(transfer, balance, total) as real > Sway(slack, total)
  }

  lemma ClearedRowsArePositive(total: int, cash: int, transfer: int, balance: int, slack: real, drift: real)
    requires 0 < cash && 0 < transfer && cash + transfer == total && 0 < balance < total
    requires -slack <= drift <= slack && Clears(total, cash, transfer, balance, slack)
    ensures BothPositive(Prorate(total, cash, transfer, balance, drift))
  {
    hide Prorate, Sway, Edge;
    ProratedRowsByDrift(total, cash, transfer, balance, drift);
    SwayIsMonotone(drift, slack, total);
    SwayIsMonotone(-slack, drift, total);
    SwayOfNegative(slack, total);
  }

  lemma PositiveRowsClear(total: int, cash: int, transfer: int, balance: int, slack: real)
    requires 0 < cash && 0 < transfer && cash + transfer == total && 0 < balance < total
    requires BothPositive(Prorate(total, cash, transfer, balance, slack))
    requires BothPositive(Prorate(total, cash, transfer, balance, -slack))
    ensures Clears(total, cash, transfer, balance, slack)
  {
    hide Prorate, Sway, Edge;
    ProratedRowsByDrift(total, cash, transfer, balance, slack);
    ProratedRowsByDrift(total, cash, transfer, balance, -slack);
    SwayOfNegative(slack, total);
  }

  /** What a caller can check before the call: both rows are positive for every error up to `slack`
      if and only if both parts clear the edge by it. */
  lemma ProratedRowsAreSurelyPositiveExactly(total: int, cash: int, transfer: int, balance: int, slack: real)
    requires 0 < cash && 0 < transfer && cash + transfer == total
    requires 0 < balance < total && 0.0 <= slack
    ensures Clears(total, cash, transfer, balance, slack) <==>
              forall drift | -slack <= drift <= slack :: BothPositive(Prorate(total, cash, transfer, balance, drift))
  {
    hide Clears, BothPositive, Prorate;
    if Clears(total, cash, transfer, balance, slack) {
      forall drift | -slack <= drift <= slack ensures BothPositive(Prorate(total, cash, transfer, balance, drift)) {
        ClearedRowsArePositive(total, cash, transfer, balance, slack, drift);
      }
    } else if forall drift | -slack <= drift <= slack :: BothPositive(Prorate(total, cash, transfer, balance, drift)) {
      PositiveRowsClear(total, cash, transfer, balance, slack);
    }
  }

  // The code's own error: two double operations.

  /** No relative error of the two double operations exceeds 2^-51. */
  const DOUBLE_ERROR := 1.0 / 2251799813685248.0

  lemma TinyPart(x: real)
    requires 0.0 <= x <= 2251799813685248.0
    ensures 0.0 <= DOUBLE_ERROR * x <= 1.0
    ensures x < 2251799813685248.0 ==> DOUBLE_ERROR * x < 1.0
  {
    assert DOUBLE_ERROR * x == x / 2251799813685248.0;
  }

  lemma Bounded(x: real, bound: real, n: real)
    requires n > 0.0 && -bound <= x <= bound
    ensures -(bound * n) <= x * n <= bound * n
  {
    ScaleLike(bound, x, n);
    ScaleLike(x, -bound, n);
    assert -bound * n == -(bound * n);
  }

  /** The error of a share, relative to it, sways the edge by twice the product. */
  lemma SwayOfShare(cash: int, total: int, balance: int, eta: real)
    requires total > 0
    ensures Sway(Share(cash, balance, total) * eta, total) == (2 * (cash * balance)) as real * eta
  {
    var share, n, p := Share(cash, balance, total), total as real, (cash * balance) as real;
    Quotient(cash as real * balance as real, n);
    assert share * n == p;
    assert (share * eta) * n == (share * n) * eta;
    assert 2.0 * (p * eta) == (2.0 * p) * eta;
    assert (2 * (cash * balance)) as real == 2.0 * p;
  }

  lemma Spread(x: real, eta: real)
    ensures x * (1.0 + eta) == x + x * eta
  {
  }

  /** A product `p` with a relative error keeps its side of a total it does not meet. */
  lemma ErrorKeepsSide(p: int, total: int, eta: real)
    requires 0 < p && 0 < total <= MAX_AMOUNT_CENTS && -DOUBLE_ERROR <= eta <= DOUBLE_ERROR
    ensures (p - total) as real + p as real * eta >= 0.0 <==> p > total || (p == total && eta >= 0.0)
  {
    var x, n := p as real, total as real;
    Spread(x, eta);
    if p > total {
      MoreStaysMore(x, n, eta);
    } else if p < total {
      LessStaysLess(x, n, eta);
    } else {
      ScaleLike(eta, 0.0, n);
    }
  }

  lemma MoreStaysMore(x: real, n: real, eta: real)
    requires 0.0 < n <= 2000000000.0 && x >= n + 1.0 && -DOUBLE_ERROR <= eta <= DOUBLE_ERROR
    ensures x * (1.0 + eta) >= n
  {
    var m := n + 1.0;
    ScaleLike(x, m, 1.0 + eta);
    Spread(m, eta);
    Bounded(eta, DOUBLE_ERROR, m);
    TinyPart(m);
    assert eta * m == m * eta;
    assert m * (1.0 + eta) >= n;
  }

  lemma LessStaysLess(x: real, n: real, eta: real)
    requires 0.0 < x <= n - 1.0 && n <= 2000000000.0 && -DOUBLE_ERROR <= eta <= DOUBLE_ERROR
    ensures x * (1.0 + eta) < n
  {
    var m := n - 1.0;
    ScaleLike(m, x, 1.0 + eta);
    Spread(m, eta);
    Bounded(eta, DOUBLE_ERROR, m);
    TinyPart(m);
    assert eta * m == m * eta;
    assert m * (1.0 + eta) < n;
  }

  /** The cash row of the code's double arithmetic, for all amounts the DTO admits: only a tie
      depends on the error. */
  lemma CashRowIsPositiveExactly(total: int, cash: int, transfer: int, balance: int, eta: real)
    requires 0 < cash && 0 < transfer && cash + transfer == total <= MAX_AMOUNT_CENTS
    requires 0 < balance < total && -DOUBLE_ERROR <= eta <= DOUBLE_ERROR
    ensures Prorate(total, cash, transfer, balance, Share(cash, balance, total) * eta).0 > 0 <==>
              Edge(cash, balance, total) > 0 || (Edge(cash, balance, total) == 0 && eta >= 0.0)
  {
    hide Prorate, Share, Sway;
    assert cash * balance > 0;
    ProratedRowsByDrift(total, cash, transfer, balance, Share(cash, balance, total) * eta);
    SwayOfShare(cash, total, balance, eta);
    ErrorKeepsSide(2 * (cash * balance), total, eta);
  }

  /** The transfer row takes what the rounding leaves, so it bears the error of the whole cash product:
      a large one can carry it across the edge from further off than a tie. */
  lemma TransferRowIsPositiveExactly(total: int, cash: int, transfer: int, balance: int, eta: real)
    requires 0 < cash && 0 < transfer && cash + transfer == total && 0 < balance < total
    ensures Prorate(total, cash, transfer, balance, Share(cash, balance, total) * eta).1 > 0 <==>
              Edge(transfer, balance, total) as real > (2 * (cash * balance)) as real * eta
  {
    hide Prorate, Share, Sway, Edge;
    ProratedRowsByDrift(total, cash, transfer, balance, Share(cash, balance, total) * eta);
    SwayOfShare(cash, total, balance, eta);
  }

  /** Two above the edge, and still no transfer row: the double product of 1999999999 and
      1000000001/2000000000 is half a billionth too large. */
  lemma TransferRowCanVanishOffTheTie()
    ensures Edge(1, 1000000001, 2000000000) == 2
    ensures Prorate(2000000000, 1999999999, 1, 1000000001, 0.0000000005) == (1000000001, 0)
  {
    assert Share(1999999999, 1000000001, 2000000000) == 1000000000.4999999995;
  }

  /** Below 2^50 square cents the double error is too small to carry either row across a tie. */
  lemma SmallProductsKeepTheTie(total: int, cash: int, balance: int, eta: real)
    requires total > 0 && 0 < cash && 0 < balance && cash * balance < 1125899906842624
    requires -DOUBLE_ERROR <= eta <= DOUBLE_ERROR
    ensures -1.0 < Sway(Share(cash, balance, total) * eta, total) < 1.0
  {
    hide Share, Sway;
    SwayOfShare(cash, total, balance, eta);
    assert cash * balance > 0;
    StaysBelowOne((2 * (cash * balance)) as real, eta);
  }

  lemma StaysBelowOne(x: real, eta: real)
    requires 0.0 < x < 2251799813685248.0 && -DOUBLE_ERROR <= eta <= DOUBLE_ERROR
    ensures -1.0 < x * eta < 1.0
  {
    Bounded(eta, DOUBLE_ERROR, x);
    TinyPart(x);
    assert eta * x == x * eta;
  }

  /** At a tie the error decides: the double product of 49 and 2/196 falls short of a half. */
  lemma TieGoesEitherWay()
    ensures Prorate(196, 49, 147, 2, 0.0) == (1, 1)
    ensures forall drift | -0.5 < drift < 0.0 :: Prorate(196, 49, 147, 2, drift) == (0, 2)
  {
    assert Share(49, 2, 196) == 0.5;
  }

  /** The percentage of a balance, as the source computes it and exactly. */
  function Computed(balance: int, rate: Rate): real {
    ExactPart(balance, rate) + rate.error(balance)
  }

  function ExactPart(balance: int, rate: Rate): real {
    balance as real * rate.percentage / 100.0
  }

  /** What the batch adds to one balance; 0 for a customer it leaves alone. */
  function Surcharge(balance: int, rate: Rate): (n: int)
    ensures n >= 0
  {
    if balance > 0 then Max(0, JsRound(Computed(balance, rate))) else 0
  }

  /** For the balances a column holds, the product is never off by half a cent, and a larger one
      never has a smaller product: multiplying and dividing by a positive double are monotone. */
  ghost predicate Dependable(rate: Rate) {
    && (forall b | 0 < b <= INT4_MAX :: -0.5 < rate.error(b) < 0.5)
    && (forall a, b | 0 < a <= b <= INT4_MAX :: Computed(a, rate) <= Computed(b, rate))
  }

  /** The product is off by at most `slack`. */
  ghost predicate Within(rate: Rate, slack: real) {
    forall b | 0 < b <= INT4_MAX :: -slack <= rate.error(b) <= slack
  }

  lemma ExactPartIsPositive(balance: int, rate: Rate)
    requires balance > 0 && rate.percentage > 0.0
    ensures ExactPart(balance, rate) > 0.0
  {
    assert balance as real * rate.percentage > 0.0;
  }

  /** The surcharge is within half a cent, plus the error of the product, of the percentage. */
  lemma SurchargeIsNearest(balance: int, rate: Rate, slack: real)
    requires 0 < balance <= INT4_MAX && rate.percentage > 0.0 && Dependable(rate) && Within(rate, slack)
    ensures Surcharge(balance, rate) == JsRound(Computed(balance, rate))
    ensures -0.5 - slack <= Surcharge(balance, rate) as real - ExactPart(balance, rate) <= 0.5 + slack
  {
    ExactPartIsPositive(balance, rate);
    assert Computed(balance, rate) > -0.5;
  }

  /** In hundredths of a cent: the surcharge is the balance times the percentage, within fifty and the
      error of the product; and it is that product, error included, rounded with halves up. */
  lemma SurchargeIsPercentage(balance: int, rate: Rate, slack: real)
    requires 0 < balance <= 2147483647 && rate.percentage > 0.0 && Dependable(rate) && Within(rate, slack)
    ensures var n, exact := Surcharge(balance, rate) as real, balance as real * rate.percentage;
            && -50.0 - 100.0 * slack <= 100.0 * n - exact <= 50.0 + 100.0 * slack
            && n - 0.5 <= exact / 100.0 + rate.error(balance) < n + 0.5
  {
    hide Surcharge, Dependable, Within, ExactPart;
    SurchargeIsNearest(balance, rate, slack);
    HundredthsOf(balance, rate);
  }

  lemma HundredthsOf(balance: int, rate: Rate)
    ensures 100.0 * ExactPart(balance, rate) == balance as real * rate.percentage
    ensures ExactPart(balance, rate) == balance as real * rate.percentage / 100.0
  {
  }

  /** A larger debt is never overtaken by a smaller one. */
  lemma SurchargePreservesOrder(a: int, b: int, rate: Rate)
    requires a <= b <= INT4_MAX && Dependable(rate)
    ensures a + Surcharge(a, rate) <= b + Surcharge(b, rate)
  {
    if a > 0 {
      var x, y := Computed(a, rate), Computed(b, rate);
      assert x <= y;
      assert JsRound(x) <= JsRound(y);
    } else if b > 0 {
      assert b + Surcharge(b, rate) >= a;
    }
  }
}
