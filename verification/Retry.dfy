/** Idempotency: repeating a successful request, however much later, changes nothing and
    answers as the first time. */
module Retry {
  import opened Domain
  import opened Rounding
  import opened Ledger
  import opened Till
  import opened Engine
  import opened Invariants
  import opened Books

  /** Requests protected by an idempotency key. */
  predicate Keyed(q: Request) {
    IsPosting(q) || q.Reverse? || q.Inflate? || (q.CreateCustomer? && q.newKey.Some?)
  }

  /** The same DTO sent again; only what the server draws for it may differ. */
  predicate SameDto(a: Request, b: Request) {
    match (a, b)
    case (RegisterDebt(c, n, k, _), RegisterDebt(c', n', k', _)) => c == c' && n == n' && k == k'
    case (RegisterPayment(c, n, m, k, _), RegisterPayment(c', n', m', k', _)) =>
      c == c' && n == n' && m == m' && k == k'
    case (RegisterMixed(c, n, x, y, k, _, _, _, _, _), RegisterMixed(c', n', x', y', k', _, _, _, _, _)) =>
      c == c' && n == n' && x == x' && y == y' && k == k'
    case (Forgive(c, k, _), Forgive(c', k', _)) => c == c' && k == k'
    case (Reverse(t, k, _), Reverse(t', k', _)) => t == t' && k == k'
    case (Inflate(p, k, _), Inflate(p', k', _)) => p.percentage == p'.percentage && k == k'
    case (CreateCustomer(_, n, phone, dni, k), CreateCustomer(_, n', phone', dni', k')) =>
      n == n' && phone == phone' && dni == dni' && k == k'
    case _ => false
  }

  /** The same rows, batch or customer, as they stand now. */
  predicate SameResult(a: Reply, b: Reply) {
    match (a, b)
    case (Posted(r), Posted(r')) => Evolves(r, r')
    case (PostedPair(c, t), PostedPair(c', t')) => Evolves(c, c') && Evolves(t, t')
    case (BatchApplied(_, _), BatchApplied(_, _)) => a == b
    case (CustomerSaved(id, _), CustomerSaved(id', _)) => id == id'
    case _ => false
  }

  // ─── Lookups in a grown ledger ─────────────────────────────────────────

  /** No row joins a payment group after its request. */
  ghost predicate GroupsClosed(l: seq<Row>, m: seq<Row>) {
    |l| <= |m| && forall i, j | 0 <= i < |l| && |l| <= j < |m| && m[j].group.Some? :: m[j].group != l[i].group
  }

  lemma FindKeyStable(l: seq<Row>, m: seq<Row>, tenant: Uuid, key: Uuid)
    requires Unique(m) && Grows(l, m) && FindKey(l, tenant, key).Some?
    ensures FindKey(m, tenant, key).Some? && Evolves(FindKey(l, tenant, key).value, FindKey(m, tenant, key).value)
  {
    var i := AtIndex(l, FindKey(l, tenant, key).value);
    assert Evolves(l[i], m[i]);
    var j := AtIndex(m, FindKey(m, tenant, key).value);
    SameRow(m, i, j);
  }

  lemma FindInGroupStable(l: seq<Row>, m: seq<Row>, g: Uuid, paidBy: PaymentMethod)
    requires Tidy(m) && Grows(l, m) && GroupsClosed(l, m)
    requires exists i :: 0 <= i < |l| && l[i].group == Some(g)
    ensures FindInGroup(l, g, paidBy).None? <==> FindInGroup(m, g, paidBy).None?
    ensures FindInGroup(l, g, paidBy).Some? ==>
              Evolves(FindInGroup(l, g, paidBy).value, FindInGroup(m, g, paidBy).value)
  {
    var a, b := FindInGroup(l, g, paidBy), FindInGroup(m, g, paidBy);
    if b.Some? {
      var j := AtIndex(m, b.value);
      assert j < |l|;
      assert Evolves(l[j], m[j]);
    }
    if a.Some? {
      var i := AtIndex(l, a.value);
      assert Evolves(l[i], m[i]);
      var j := AtIndex(m, b.value);
      assert i == j;
    }
  }

  /** What the ledger answers to a key it holds. */
  function Answer(l: seq<Row>, tenant: Uuid, q: Request): Reply
    requires (IsPosting(q) || q.Reverse?) && FindKey(l, tenant, q.key).Some?
  {
    var existing := FindKey(l, tenant, q.key).value;
    if q.Reverse? then Posted(existing) else Replay(l, q, existing)
  }

  lemma AnswerStable(l: seq<Row>, m: seq<Row>, tenant: Uuid, q: Request)
    requires (IsPosting(q) || q.Reverse?) && FindKey(l, tenant, q.key).Some?
    requires Unique(m) && Tidy(m) && Grows(l, m) && GroupsClosed(l, m)
    ensures FindKey(m, tenant, q.key).Some? && SameResult(Answer(l, tenant, q), Answer(m, tenant, q))
  {
    FindKeyStable(l, m, tenant, q.key);
    var existing := FindKey(l, tenant, q.key).value;
    if q.RegisterMixed? && existing.group.Some? {
      var i := AtIndex(l, existing);
      FindInGroupStable(l, m, existing.group.value, CASH);
      FindInGroupStable(l, m, existing.group.value, TRANSFER);
    }
  }

  // ─── What a run leaves in place ────────────────────────────────────────

  /** Batches stay, customers keep their tenant and client key. */
  ghost predicate KeepsAccounts(s: Store, t: Store) {
    && (forall b | b in s.batches :: b in t.batches && t.batches[b] == s.batches[b])
    && (forall c | c in s.customers ::
          c in t.customers && t.customers[c].tenant == s.customers[c].tenant
              && t.customers[c].key == s.customers[c].key)
  }

  ghost predicate Remembers(s: Store, t: Store) {
    Grows(s.ledger, t.ledger) && GroupsClosed(s.ledger, t.ledger) && KeepsAccounts(s, t)
  }

  lemma RemembersTransitive(s: Store, t: Store, u: Store)
    requires Remembers(s, t) && Remembers(t, u)
    ensures Remembers(s, u)
  {
    GrowsTransitive(s.ledger, t.ledger, u.ledger);
    forall i, j | 0 <= i < |s.ledger| && |s.ledger| <= j < |u.ledger| && u.ledger[j].group.Some?
      ensures u.ledger[j].group != s.ledger[i].group
    {
      assert Evolves(s.ledger[i], t.ledger[i]);
      if j < |t.ledger| {
        assert Evolves(t.ledger[j], u.ledger[j]);
      }
    }
  }

  lemma PostingClosesGroups(s: Store, e: Env)
    requires Inv(s) && WellFormed(s, e) && IsPosting(e.request)
    ensures GroupsClosed(s.ledger, ApplyPosting(s, e).store.ledger)
  {
    hide Linked, Tidy, Owned, Semaphore, Sealed, Unique, Insertable, Decide, Net;
    if ApplyPosting(s, e).store != s {
      DecideIsSound(e, s.customers[e.request.customer], s);
    }
  }

  lemma BatchClosesGroups(s: Store, e: Env)
    requires WellFormed(s, e) && e.request.Inflate?
    ensures GroupsClosed(s.ledger, ApplyInflate(s, e).store.ledger)
  {
    hide Insertable, InflatedCustomers;
    var q := e.request;
    InflationRowsAreSound(e, s.customers, q.rate, q.slots);
    BatchRowsAreTidy(e, s.customers, q.rate, InflationRows(e, s.customers, q.rate, q.slots));
  }

  lemma ReversalClosesGroups(s: Store, e: Env)
    requires Inv(s) && e.request.Reverse?
    ensures GroupsClosed(s.ledger, ApplyReverse(s, e).store.ledger)
  {
    hide Linked, Tidy, Owned, Solvent, Semaphore, Sealed, Insertable;
    if ApplyReverse(s, e).store != s {
      var o := ReverseShape(s, e);
    }
  }

  lemma OthersCloseGroups(s: Store, e: Env)
    requires !IsPosting(e.request) && !e.request.Inflate? && !e.request.Reverse?
    ensures GroupsClosed(s.ledger, Apply(s, e).store.ledger)
  {
  }

  lemma StepClosesGroups(s: Store, e: Env)
    requires Inv(s) && WellFormed(s, e)
    ensures GroupsClosed(s.ledger, Apply(s, e).store.ledger)
  {
    hide Inv, WellFormed, GroupsClosed, ApplyPosting, ApplyInflate, ApplyReverse;
    if IsPosting(e.request) {
      PostingClosesGroups(s, e);
    } else if e.request.Inflate? {
      BatchClosesGroups(s, e);
    } else if e.request.Reverse? {
      ReversalClosesGroups(s, e);
    } else {
      OthersCloseGroups(s, e);
    }
  }

  lemma StepRemembers(s: Store, e: Env)
    requires Inv(s) && WellFormed(s, e)
    ensures Remembers(s, Apply(s, e).store)
  {
    StepGrowsLedger(s, e);
    StepClosesGroups(s, e);
    StepKeepsAccounts(s, e);
  }

  lemma PostingKeepsAccounts(s: Store, e: Env)
    requires IsPosting(e.request)
    ensures KeepsAccounts(s, ApplyPosting(s, e).store)
  {
  }

  lemma ReverseKeepsAccounts(s: Store, e: Env)
    requires e.request.Reverse?
    ensures KeepsAccounts(s, ApplyReverse(s, e).store)
  {
  }

  lemma MergeKeepsAccounts(s: Store, e: Env)
    requires e.request.Merge?
    ensures KeepsAccounts(s, ApplyMerge(s, e).store)
  {
  }

  lemma InflateKeepsAccounts(s: Store, e: Env)
    requires e.request.Inflate?
    ensures KeepsAccounts(s, ApplyInflate(s, e).store)
  {
  }

  lemma StepKeepsAccounts(s: Store, e: Env)
    ensures KeepsAccounts(s, Apply(s, e).store)
  {
    match e.request
    case Reverse(_, _, _) => ReverseKeepsAccounts(s, e);
    case Inflate(_, _, _) => InflateKeepsAccounts(s, e);
    case Merge(_, _) => MergeKeepsAccounts(s, e);
    case CreateCustomer(_, _, _, _, _) =>
    case SetLimit(_, _) =>
    case ToggleBlock(_) =>
    case OpenTurn(_, _) =>
    case CloseTurn(_, _) =>
    case _ => PostingKeepsAccounts(s, e);
  }

  lemma {:induction false} RunRemembers(s: Store, es: seq<Env>)
    requires Inv(s) && WellFormedRun(s, es)
    ensures Remembers(s, Run(s, es))
  {
    if es != [] {
      var n := |es| - 1;
      RunRemembers(s, es[..n]);
      RunKeepsInv(s, es[..n]);
      StepRemembers(Run(s, es[..n]), es[n]);
      RemembersTransitive(s, Run(s, es[..n]), Run(s, es));
    }
  }

  // ─── The first answer ──────────────────────────────────────────────────

  /** After a successful posting or reversal the ledger holds the key and answers alike. */
  lemma FirstAnswer(s: Store, e: Env)
    requires Inv(s) && WellFormed(s, e) && (IsPosting(e.request) || e.request.Reverse?)
    requires !Apply(s, e).reply.Rejected?
    ensures var t := Apply(s, e).store;
            && FindKey(t.ledger, e.tenant, e.request.key).Some?
            && SameResult(Apply(s, e).reply, Answer(t.ledger, e.tenant, e.request))
  {
    hide Inv, WellFormed;
    if Apply(s, e).store != s {
      StepKeepsInv(s, e);
      if e.request.Reverse? {
        FirstReversal(s, e);
      } else {
        FirstPosting(s, e);
      }
    }
  }

  lemma KeyFindsRow(l: seq<Row>, i: nat)
    requires Unique(l) && i < |l|
    ensures FindKey(l, l[i].tenant, l[i].key) == Some(l[i])
  {
    var j := AtIndex(l, FindKey(l, l[i].tenant, l[i].key).value);
    SameRow(l, i, j);
  }

  lemma GroupFindsRow(l: seq<Row>, i: nat)
    requires Tidy(l) && i < |l| && l[i].group.Some?
    ensures l[i].paidBy.Some? && FindInGroup(l, l[i].group.value, l[i].paidBy.value) == Some(l[i])
  {
    var j := AtIndex(l, FindInGroup(l, l[i].group.value, l[i].paidBy.value).value);
    assert i == j;
  }

  lemma FirstReversal(s: Store, e: Env)
    requires e.request.Reverse? && Inv(s) && Inv(ApplyReverse(s, e).store) && ApplyReverse(s, e).store != s
    ensures FindKey(ApplyReverse(s, e).store.ledger, e.tenant, e.request.key) == Some(ApplyReverse(s, e).reply.row)
  {
    var o := ReverseShape(s, e);
    KeyFindsRow(ApplyReverse(s, e).store.ledger, |s.ledger|);
  }

  lemma FirstPosting(s: Store, e: Env)
    requires Inv(s) && WellFormed(s, e) && IsPosting(e.request)
    requires Inv(ApplyPosting(s, e).store) && ApplyPosting(s, e).store != s
    ensures var t := ApplyPosting(s, e).store;
            && FindKey(t.ledger, e.tenant, e.request.key).Some?
            && SameResult(ApplyPosting(s, e).reply, Answer(t.ledger, e.tenant, e.request))
  {
    hide Linked, Owned, Semaphore, Sealed, Insertable, FindKey, FindInGroup, Prorate;
    var q, l := e.request, ApplyPosting(s, e).store.ledger;
    var d := Decide(e, s.customers[q.customer]);
    DecideIsSound(e, s.customers[q.customer], s);
    var n := |s.ledger|;
    assert l[n] == d.rows[0];
    KeyFindsRow(l, n);
    if q.RegisterMixed? {
      assert l[n + 1] == d.rows[1];
      GroupFindsRow(l, n);
      GroupFindsRow(l, n + 1);
    }
  }

  // ─── The repeated request ──────────────────────────────────────────────

  lemma SecondAnswer(s: Store, e: Env)
    requires (IsPosting(e.request) || e.request.Reverse?)
    requires FindKey(s.ledger, e.tenant, e.request.key).Some?
    requires e.request.RegisterMixed? ==> e.request.cash + e.request.transfer == e.request.total
    ensures Apply(s, e) == Outcome(s, Answer(s.ledger, e.tenant, e.request))
  {
  }

  lemma RetryOfCreate(s: Store, e: Env, t: Store, again: Env)
    requires e.request.CreateCustomer? && e.request.newKey.Some? && !ApplyCreate(s, e).reply.Rejected?
    requires Inv(t) && Remembers(ApplyCreate(s, e).store, t)
    requires again.request.CreateCustomer? && again.request.newKey == e.request.newKey && again.tenant == e.tenant
    ensures ApplyCreate(t, again).store == t && SameResult(ApplyCreate(s, e).reply, ApplyCreate(t, again).reply)
  {
    var id, key := ApplyCreate(s, e).reply.id, e.request.newKey.value;
    assert KeyTaken(ApplyCreate(s, e).store, e.tenant, key, id);
    assert KeyTaken(t, again.tenant, key, id);
  }

  lemma RetryOfRow(s: Store, e: Env, t: Store, again: Env)
    requires Inv(s) && WellFormed(s, e) && (IsPosting(e.request) || e.request.Reverse?)
    requires !Apply(s, e).reply.Rejected?
    requires Inv(t) && Remembers(Apply(s, e).store, t)
    requires again.tenant == e.tenant && SameDto(e.request, again.request)
    ensures Apply(t, again).store == t && SameResult(Apply(s, e).reply, Apply(t, again).reply)
  {
    var first := Apply(s, e);
    FirstAnswer(s, e);
    AnswerStable(first.store.ledger, t.ledger, e.tenant, e.request);
    ResultsCompose(first.reply, Answer(first.store.ledger, e.tenant, e.request), Answer(t.ledger, e.tenant, e.request));
    if e.request.RegisterMixed? {
      MismatchIsRefused(s, e);
    }
    SecondAnswer(t, again);
  }

  lemma MismatchIsRefused(s: Store, e: Env)
    requires e.request.RegisterMixed? && !Apply(s, e).reply.Rejected?
    ensures e.request.cash + e.request.transfer == e.request.total
  {
  }

  lemma RetryOfBatch(s: Store, e: Env, t: Store, again: Env)
    requires e.request.Inflate? && !ApplyInflate(s, e).reply.Rejected?
    requires KeepsAccounts(ApplyInflate(s, e).store, t)
    requires again.request.Inflate? && again.request.key == e.request.key && again.tenant == e.tenant
    ensures ApplyInflate(t, again) == Outcome(t, ApplyInflate(s, e).reply)
  {
    assert (e.tenant, e.request.key) in ApplyInflate(s, e).store.batches;
  }

  /** Repeating a successful request after any further traffic changes nothing and returns the
      original result. */
  lemma RetryIsNoOp(s: Store, e: Env, es: seq<Env>, again: Env)
    requires Inv(s) && WellFormed(s, e) && Keyed(e.request) && !Apply(s, e).reply.Rejected?
    requires WellFormedRun(Apply(s, e).store, es)
    requires again.tenant == e.tenant && SameDto(e.request, again.request)
    ensures var t := Run(Apply(s, e).store, es);
            && Apply(t, again).store == t
            && SameResult(Apply(s, e).reply, Apply(t, again).reply)
  {
    hide Inv, WellFormed, WellFormedRun, Remembers;
    var first := Apply(s, e).store;
    var t := Run(first, es);
    StepKeepsInv(s, e);
    RunKeepsInv(first, es);
    RunRemembers(first, es);
    if e.request.CreateCustomer? {
      RetryOfCreate(s, e, t, again);
    } else if e.request.Inflate? {
      RetryOfBatch(s, e, t, again);
    } else {
      RetryOfRow(s, e, t, again);
    }
  }

  lemma ResultsCompose(a: Reply, b: Reply, c: Reply)
    requires SameResult(a, b) && SameResult(b, c)
    ensures SameResult(a, c)
  {
  }

  /** Inserting the repeat anywhere in the traffic that follows leaves the final state as it
      would have been without it. */
  lemma RetryInsertion(s: Store, e: Env, es: seq<Env>, again: Env, fs: seq<Env>)
    requires Inv(s) && WellFormed(s, e) && Keyed(e.request) && !Apply(s, e).reply.Rejected?
    requires WellFormedRun(Apply(s, e).store, es)
    requires again.tenant == e.tenant && SameDto(e.request, again.request)
    ensures Run(s, [e] + es + [again] + fs) == Run(s, [e] + es + fs)
  {
    var t := Run(Apply(s, e).store, es);
    RetryIsNoOp(s, e, es, again);
    OneStep(s, e);
    OneStep(t, again);
    RunAppend(s, [e], es);
    RunAppend(s, [e] + es, [again]);
    RunAppend(s, [e] + es + [again], fs);
    RunAppend(s, [e] + es, fs);
  }

  lemma OneStep(s: Store, e: Env)
    ensures Run(s, [e]) == Apply(s, e).store
  {
    assert [e][..0] == [];
    assert Run(s, [e][..0]) == s;
  }
}
