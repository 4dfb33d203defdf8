/** The customer's statement page: the Debe and Haber columns against the engine's balance. */
module Statement {
  import opened Domain
  import opened Ledger
  import opened Engine
  import opened Invariants
  import opened Books

  datatype Direction = Debe | Haber

  /** `getTxDirection`: a reversal goes opposite to its original, looked up in the loaded list;
      without the original it goes to Debe. */
  function GetTxDirection(tx: Row, all: seq<Row>): Direction {
    if tx.kind == REVERSAL then
      var original := if tx.reverses.Some? then FindId(all, tx.reverses.value) else None;
      if original.None? then Debe
      else if IncreasesDebt(original.value.kind) then Haber else Debe
    else if IncreasesDebt(tx.kind) then Debe else Haber
  }

  /** A customer's full history. */
  function History(l: seq<Row>, tenant: Uuid, c: Uuid): seq<Row> {
    if l == [] then []
    else
      var front, last := History(l[..|l| - 1], tenant, c), l[|l| - 1];
      if last.tenant == tenant && last.customer == c then front + [last] else front
  }

  /** The total of one column of the page over `rows`, in the list `all`. */
  function Column(rows: seq<Row>, all: seq<Row>, side: Direction): int {
    if rows == [] then 0
    else
      var last := rows[|rows| - 1];
      Column(rows[..|rows| - 1], all, side) + if GetTxDirection(last, all) == side then last.amount else 0
  }

  lemma {:induction false} HistoryMembers(l: seq<Row>, tenant: Uuid, c: Uuid)
    ensures forall r :: r in History(l, tenant, c) <==> r in l && r.tenant == tenant && r.customer == c
  {
    if l != [] {
      var n := |l| - 1;
      HistoryMembers(l[..n], tenant, c);
      assert l == l[..n] + [l[n]];
    }
  }

  /** A reversal's original is in the same customer's history, merges included. */
  lemma OriginalIsListed(l: seq<Row>, tenant: Uuid, c: Uuid, i: nat)
    requires Unique(l) && Linked(l) && i < |l|
    requires l[i].kind == REVERSAL && l[i].tenant == tenant && l[i].customer == c
    ensures var h := History(l, tenant, c);
            && l[i].reverses.Some? && FindId(h, l[i].reverses.value).Some?
            && FindId(h, l[i].reverses.value) == FindId(l, l[i].reverses.value)
  {
    assert HasOriginal(l, i);
    var j :| 0 <= j < i && Undoes(l[i], l[j]);
    HistoryMembers(l, tenant, c);
    var h := History(l, tenant, c);
    var found := FindId(h, l[j].id);
    assert found.Some? by {
      assert l[j] in h;
    }
    var k := AtIndex(l, found.value);
    SameRow(l, j, k);
    FindIdUnique(l, j);
  }

  /** The page puts a row of the full history on the side on which the engine booked it. */
  lemma DirectionAgrees(l: seq<Row>, tenant: Uuid, c: Uuid, i: nat)
    requires Unique(l) && Linked(l) && i < |l| && l[i].tenant == tenant && l[i].customer == c
    ensures Signed(l[i], l)
         == if GetTxDirection(l[i], History(l, tenant, c)) == Debe then l[i].amount else -l[i].amount
  {
    if l[i].kind == REVERSAL {
      OriginalIsListed(l, tenant, c, i);
    }
  }

  lemma {:induction false} ColumnsOfPrefix(l: seq<Row>, tenant: Uuid, c: Uuid, n: nat)
    requires Unique(l) && Linked(l) && n <= |l|
    requires forall i | 0 <= i < |l| && l[i].customer == c :: l[i].tenant == tenant
    ensures var h, part := History(l, tenant, c), History(l[..n], tenant, c);
            Column(part, h, Debe) - Column(part, h, Haber) == Net(l[..n], l, c)
  {
    if n != 0 {
      ColumnsOfPrefix(l, tenant, c, n - 1);
      assert l[..n][..n - 1] == l[..n - 1];
      if l[n - 1].customer == c {
        DirectionAgrees(l, tenant, c, n - 1);
        var part := History(l[..n], tenant, c);
        assert part[..|part| - 1] == History(l[..n - 1], tenant, c);
      }
    }
  }

  /** After any run the page agrees with the engine: on a customer's full history, Debe minus
      Haber is the signed sum the engine applied. */
  lemma StatementAgrees(s: Store, es: seq<Env>, c: Uuid)
    requires Inv(s) && WellFormedRun(s, es) && c in Run(s, es).customers
    ensures var t := Run(s, es);
            var h := History(t.ledger, t.customers[c].tenant, c);
            && Column(h, h, Debe) - Column(h, h, Haber) == Net(t.ledger, t.ledger, c)
  {
    RunKeepsInv(s, es);
    var l := Run(s, es).ledger;
    ColumnsOfPrefix(l, Run(s, es).customers[c].tenant, c, |l|);
    assert l[..|l|] == l;
  }

  /** From balanced books, the page's bottom line is the cached balance less what clamped
      reversals swallowed. */
  lemma StatementShowsBalance(s: Store, es: seq<Env>, c: Uuid)
    requires Inv(s) && Balanced(s) && WellFormedRun(s, es) && c in Run(s, es).customers
    ensures var t := Run(s, es);
            var h := History(t.ledger, t.customers[c].tenant, c);
            && Column(h, h, Debe) - Column(h, h, Haber) == t.customers[c].balance - Swept(s, es)(c)
  {
    StatementAgrees(s, es, c);
    Conservation(s, es, c);
  }

  /** On a page of the history a row changes side if and only if it is a reversal whose
      original increased the debt and is not on the page. */
  lemma PageMisplacesExactly(l: seq<Row>, tenant: Uuid, c: Uuid, page: seq<Row>, i: nat)
    requires Unique(l) && Linked(l) && i < |l| && l[i].tenant == tenant && l[i].customer == c
    requires forall r | r in page :: r in History(l, tenant, c)
    ensures GetTxDirection(l[i], page) != GetTxDirection(l[i], History(l, tenant, c)) <==>
              && l[i].kind == REVERSAL && l[i].reverses.Some?
              && FindId(l, l[i].reverses.value).Some?
              && IncreasesDebt(FindId(l, l[i].reverses.value).value.kind)
              && forall r | r in page :: r.id != l[i].reverses.value
  {
    if l[i].kind == REVERSAL {
      OriginalIsListed(l, tenant, c, i);
      var id := l[i].reverses.value;
      var found := FindId(page, id);
      if found.Some? {
        HistoryMembers(l, tenant, c);
        var k := AtIndex(l, found.value);
        FindIdUnique(l, k);
      } else {
        forall r | r in page ensures r.id != id {
          var k := AtIndex(page, r);
        }
      }
    }
  }
}
