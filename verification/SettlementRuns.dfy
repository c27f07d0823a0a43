/**
 * Whole runs of the settlement services: any sequence of openings, payments, claim
 * submissions and reconciliations, accepted or refused, from empty tables.
 */
module SettlementRuns {
  import opened Basics
  import opened ReceivableStates
  import opened Decisions
  import opened Fifo
  import opened Identifiers
  import opened Settlement

  datatype Action =
    | Intent(store: Id, sale: Id, owed: seq<Owed>, ids: seq<Id>)
    | Pay(receivable: Id, amount: Option<int>, version: int)
    | Submit(payer: Id, refs: seq<Id>, claim: Id)
    | Remit(claim: Id, remitted: Option<int>)

  predicate WellFormed(a: Action) { a.Intent? ==> |a.owed| == |a.ids| }

  function KindOf(db: Db, a: Action): Kind
    requires WellFormed(a)
  {
    match a
    case Intent(store, sale, owed, ids) => OpenKind(db, store, sale, owed, ids)
    case Pay(r, amount, version) => PayKind(db, r, amount, version)
    case Submit(payer, refs, claim) => SubmitKind(db, payer, refs, claim)
    case Remit(claim, remitted) => ReconcileKind(db, claim, remitted)
  }

  function Do(db: Db, a: Action): Db
    requires WellFormed(a)
  {
    match a
    case Intent(store, sale, owed, ids) => OpenFromIntent(db, store, sale, owed, ids)
    case Pay(r, amount, version) => ApplyPayment(db, r, amount, version)
    case Submit(payer, refs, claim) => SubmitClaim(db, payer, refs, claim)
    case Remit(claim, remitted) => Reconcile(db, claim, remitted)
  }

  /** History kept beside the tables: what was opened, and what each remittance was worth to a line. */
  datatype Entry = Opened(receivable: Id, amount: int) | Absorbed(receivable: Id, amount: int)

  function Entries(db: Db, a: Action): seq<Entry>
    requires WellFormed(a)
  {
    if KindOf(db, a) != Ok then []
    else match a
      case Intent(_, _, owed, ids) => OpenedEntries(owed, ids)
      case Remit(claim, remitted) => AbsorbedEntries(Lines(db, claim), LineShares(db, claim, remitted.value))
      case _ => []
  }

  function OpenedEntries(owed: seq<Owed>, ids: seq<Id>): (es: seq<Entry>)
    requires |owed| == |ids|
    ensures |es| == |ids|
    ensures forall i :: 0 <= i < |ids| ==> es[i] == Opened(ids[i], owed[i].amount)
  {
    seq(|ids|, i requires 0 <= i < |ids| => Opened(ids[i], owed[i].amount))
  }

  function AbsorbedEntries(ids: seq<Id>, shares: seq<int>): (es: seq<Entry>)
    requires |ids| == |shares|
    ensures |es| == |ids|
    ensures forall i :: 0 <= i < |ids| ==> es[i] == Absorbed(ids[i], shares[i])
  {
    seq(|ids|, i requires 0 <= i < |ids| => Absorbed(ids[i], shares[i]))
  }

  datatype World = World(db: Db, log: seq<Entry>)

  function Step(w: World, a: Action): World
    requires WellFormed(a)
  {
    World(Do(w.db, a), w.log + Entries(w.db, a))
  }

  function Start(payers: map<Id, Option<Id>>, sales: map<Id, Id>): World {
    World(Db(payers, sales, map[], map[], [], [], [], []), [])
  }

  predicate AllWellFormed(acts: seq<Action>) { forall i :: 0 <= i < |acts| ==> WellFormed(acts[i]) }

  function Run(w: World, acts: seq<Action>): World
    requires AllWellFormed(acts)
  {
    if |acts| == 0 then w else Step(Run(w, acts[..|acts| - 1]), acts[|acts| - 1])
  }

  // ---- row functions for the totals ------------------------------------------------

  function OpenedTo(r: Id): Entry -> int { (e: Entry) => if e == Opened(r, e.amount) then e.amount else 0 }

  function AbsorbedBy(r: Id): Entry -> int { (e: Entry) => if e == Absorbed(r, e.amount) then e.amount else 0 }

  function AnyAbsorbed(): Entry -> int { (e: Entry) => if e.Absorbed? then e.amount else 0 }

  function PaidTo(r: Id): Payment -> int { (p: Payment) => if p.receivable == r then p.amount else 0 }

  function Remitted(): Remittance -> int { (m: Remittance) => m.amount }

  /** The over-remittance a flagged result records. */
  function Excess(): Reconciliation -> int {
    (x: Reconciliation) => if x.outcome == OutFlagged then x.remitted - x.claimed else 0
  }

  function OfClaim(c: Id): Reconciliation -> int { (x: Reconciliation) => if x.claim == c then 1 else 0 }

  // ---- invariants ------------------------------------------------------------------

  /** A receivable's original amount is its balance plus what was paid and what was remitted on it. */
  ghost predicate Conserved(w: World) {
    forall r: Id ::
      Total(w.log, OpenedTo(r)) ==
      (if r in w.db.receivables then w.db.receivables[r].balance else 0)
      + Total(w.db.payments, PaidTo(r)) + Total(w.log, AbsorbedBy(r))
  }

  ghost predicate RemittancesBalance(w: World) {
    Total(w.db.remittances, Remitted()) == Total(w.log, AnyAbsorbed()) + Total(w.db.results, Excess())
  }

  /** Balances are storable, and a terminal receivable owes nothing. */
  ghost predicate GoodRows(db: Db) {
    forall r :: r in db.receivables ==>
      && Storable(db.receivables[r].balance)
      && (IsTerminal(db.receivables[r].state) ==> db.receivables[r].balance == 0)
      && db.receivables[r].payer in db.payers
  }

  /** Every claim is non-empty with one payer and one store; every claimed receivable is in a claim. */
  ghost predicate GoodClaims(db: Db) {
    && (forall l :: l in db.links ==>
          && l.claim in db.claims && l.receivable in db.receivables
          && db.receivables[l.receivable].payer == db.claims[l.claim].payer
          && db.receivables[l.receivable].store == db.claims[l.claim].store)
    && (forall c :: c in db.claims ==> exists r :: Link(c, r) in db.links)
    && (forall r :: r in db.receivables && db.receivables[r].state == Claimed ==>
          exists c :: Link(c, r) in db.links)
  }

  /** A claim has one reconciliation result once reconciled, and none before. */
  ghost predicate GoodResults(db: Db) {
    forall c: Id :: Total(db.results, OfClaim(c)) ==
      if c in db.claims && db.claims[c].status == Reconciled then 1 else 0
  }

  ghost predicate Wf(db: Db) { GoodRows(db) && GoodClaims(db) && GoodResults(db) }

  ghost predicate Inv(w: World) { Wf(w.db) && Conserved(w) && RemittancesBalance(w) }

  /** What one action may do to a row that existed before it. */
  predicate LegalRow(was: Receivable, now: Receivable) {
    && now.payer == was.payer && now.store == was.store
    && now.balance <= was.balance
    && (now.state == was.state || CanTransition(was.state, now.state))
    && (IsTerminal(was.state) ==> now == was)
    && (now != was ==> now.version == was.version + 1)
  }

  ghost predicate LegalStep(db: Db, after: Db) {
    forall r :: r in db.receivables ==> r in after.receivables && LegalRow(db.receivables[r], after.receivables[r])
  }

  /** Claims stay well formed when links stand still and no row becomes claimed. */
  lemma ClaimsFrame(db: Db, after: Db)
    requires GoodClaims(db) && LegalStep(db, after) && after.links == db.links
    requires after.claims.Keys == db.claims.Keys
    requires forall c :: c in db.claims ==>
      after.claims[c].payer == db.claims[c].payer && after.claims[c].store == db.claims[c].store
    requires forall r :: r in after.receivables && after.receivables[r].state == Claimed ==>
      r in db.receivables && db.receivables[r].state == Claimed
    ensures GoodClaims(after)
  {}

  // ---- opening ------------------------------------------------------------------------

  lemma {:induction false} InsertRowsAt(rs: map<Id, Receivable>, saleKnown: bool, store: Id, owed: seq<Owed>,
                                        ids: seq<Id>)
    requires |owed| == |ids|
    requires InsertRows(rs, saleKnown, store, owed, ids).kind == Ok
    ensures Distinct(ids)
    ensures var rows := InsertRows(rs, saleKnown, store, owed, ids).rows;
            && (forall r :: r in rows <==> r in rs || r in ids)
            && (forall r :: r in rs ==> r !in ids && rows[r] == rs[r])
            && (forall i :: 0 <= i < |ids| ==>
                  Storable(owed[i].amount) && rows[ids[i]] == NewReceivable(owed[i], store))
    decreases |owed|
  {
    if |owed| > 0 {
      var rest := rs[ids[0] := NewReceivable(owed[0], store)];
      InsertRowsAt(rest, saleKnown, store, owed[1..], ids[1..]);
      assert ids == [ids[0]] + ids[1..];
      assert ids[0] in rest;
    }
  }

  lemma {:induction false} OpenedTotals(owed: seq<Owed>, ids: seq<Id>, r: Id)
    requires |owed| == |ids| && Distinct(ids)
    ensures Total(OpenedEntries(owed, ids), AbsorbedBy(r)) == 0
    ensures Total(OpenedEntries(owed, ids), AnyAbsorbed()) == 0
    ensures r !in ids ==> Total(OpenedEntries(owed, ids), OpenedTo(r)) == 0
    ensures forall i :: 0 <= i < |ids| && ids[i] == r ==>
      Total(OpenedEntries(owed, ids), OpenedTo(r)) == owed[i].amount
  {
    var n, es := |ids| - 1, OpenedEntries(owed, ids);
    if |ids| > 0 {
      assert es[..n] == OpenedEntries(owed[..n], ids[..n]);
      OpenedTotals(owed[..n], ids[..n], r);
      if r == ids[n] { assert r !in ids[..n]; }
    }
  }

  lemma IntentTables(db: Db, store: Id, sale: Id, owed: seq<Owed>, ids: seq<Id>)
    requires Wf(db) && |owed| == |ids|
    ensures var after := OpenFromIntent(db, store, sale, owed, ids); Wf(after) && LegalStep(db, after)
  {
    hide InsertRows, Total, GoodClaims;
    var after := OpenFromIntent(db, store, sale, owed, ids);
    if OpenKind(db, store, sale, owed, ids) == Ok {
      InsertRowsAt(db.receivables, SaleKnown(db, sale, store), store, owed, ids);
      ClaimsFrame(db, after);
    }
  }

  lemma IntentMoney(w: World, a: Action)
    requires Conserved(w) && RemittancesBalance(w) && a.Intent? && WellFormed(a) && KindOf(w.db, a) == Ok
    ensures Conserved(Step(w, a)) && RemittancesBalance(Step(w, a))
  {
    hide InsertRows, Total, OpenedEntries;
    var db, next := w.db, Step(w, a);
    InsertRowsAt(db.receivables, SaleKnown(db, a.sale, a.store), a.store, a.owed, a.ids);
    forall r: Id
      ensures Total(next.log, OpenedTo(r)) ==
        (if r in next.db.receivables then next.db.receivables[r].balance else 0)
        + Total(next.db.payments, PaidTo(r)) + Total(next.log, AbsorbedBy(r))
    {
      OpenedTotals(a.owed, a.ids, r);
      TotalConcat(w.log, Entries(db, a), OpenedTo(r));
      TotalConcat(w.log, Entries(db, a), AbsorbedBy(r));
      if r in a.ids { var i :| 0 <= i < |a.ids| && a.ids[i] == r; }
    }
    OpenedTotals(a.owed, a.ids, 0);
    TotalConcat(w.log, Entries(db, a), AnyAbsorbed());
  }

  // ---- paying --------------------------------------------------------------------------

  lemma PayTables(db: Db, r: Id, amount: Option<int>, version: int)
    requires Wf(db)
    ensures var after := ApplyPayment(db, r, amount, version); Wf(after) && LegalStep(db, after)
  {
    hide Total, GoodClaims;
    var after := ApplyPayment(db, r, amount, version);
    if PayKind(db, r, amount, version) == Ok {
      assert LegalRow(db.receivables[r], after.receivables[r]);
      ClaimsFrame(db, after);
    }
  }

  lemma PayMoney(w: World, a: Action)
    requires Conserved(w) && RemittancesBalance(w) && a.Pay? && KindOf(w.db, a) == Ok
    ensures Conserved(Step(w, a)) && RemittancesBalance(Step(w, a))
  {
    hide Total;
    assert w.log + [] == w.log;
    forall r: Id ensures Total(Step(w, a).db.payments, PaidTo(r))
                      == Total(w.db.payments, PaidTo(r)) + if r == a.receivable then a.amount.value else 0
    {
      TotalSnoc(w.db.payments, Payment(a.receivable, a.amount.value), PaidTo(r));
    }
  }

  // ---- claiming ---------------------------------------------------------------------------

  lemma SubmitLinks(db: Db, payer: Id, refs: seq<Id>, claim: Id)
    requires SubmitKind(db, payer, refs, claim) == Ok
    ensures forall l :: l in SubmitClaim(db, payer, refs, claim).links <==>
      l in db.links || (l.claim == claim && l.receivable in refs)
  {
    var d := Dedup(refs);
    var added := LinkAll(claim, d);
    assert SubmitClaim(db, payer, refs, claim).links == db.links + added;
    forall r | r in refs ensures Link(claim, r) in added {
      var i :| 0 <= i < |d| && d[i] == r;
      assert added[i] == Link(claim, r);
    }
  }

  lemma SubmitClaims(db: Db, payer: Id, refs: seq<Id>, claim: Id)
    requires GoodClaims(db) && SubmitKind(db, payer, refs, claim) == Ok
    ensures GoodClaims(SubmitClaim(db, payer, refs, claim))
  {
    hide Dedup, LinkAll, GoodClaims;
    var after := SubmitClaim(db, payer, refs, claim);
    SubmitLinks(db, payer, refs, claim);
    SubmitMembers(db, payer, refs, claim, after.links);
    assert GoodClaims(after) by { SubmitCover(db, payer, refs, claim, after); }
  }

  /** Every link of the new tables joins a claim to a receivable of its payer and store. */
  lemma SubmitMembers(db: Db, payer: Id, refs: seq<Id>, claim: Id, links: seq<Link>)
    requires GoodClaims(db) && SubmitKind(db, payer, refs, claim) == Ok
    requires forall l :: l in links <==> l in db.links || (l.claim == claim && l.receivable in refs)
    ensures var after := SubmitClaim(db, payer, refs, claim);
            forall l :: l in links ==>
              && l.claim in after.claims && l.receivable in after.receivables
              && after.receivables[l.receivable].payer == after.claims[l.claim].payer
              && after.receivables[l.receivable].store == after.claims[l.claim].store
  {
    hide Dedup, LinkAll;
  }

  lemma SubmitCover(db: Db, payer: Id, refs: seq<Id>, claim: Id, after: Db)
    requires GoodClaims(db) && SubmitKind(db, payer, refs, claim) == Ok
    requires after == SubmitClaim(db, payer, refs, claim)
    requires forall l :: l in after.links <==> l in db.links || (l.claim == claim && l.receivable in refs)
    requires forall l :: l in after.links ==>
      && l.claim in after.claims && l.receivable in after.receivables
      && after.receivables[l.receivable].payer == after.claims[l.claim].payer
      && after.receivables[l.receivable].store == after.claims[l.claim].store
    ensures GoodClaims(after)
  {
    hide Dedup, LinkAll;
    assert Link(claim, refs[0]) in after.links;
    forall c | c in db.claims ensures exists r :: Link(c, r) in after.links {
      var r :| Link(c, r) in db.links;
      assert Link(c, r) in after.links;
    }
    forall r | r in after.receivables && after.receivables[r].state == Claimed
      ensures exists c :: Link(c, r) in after.links
    {
      if r in refs {
        assert Link(claim, r) in after.links;
      } else {
        var c :| Link(c, r) in db.links;
        assert Link(c, r) in after.links;
      }
    }
  }

  lemma SubmitTables(db: Db, payer: Id, refs: seq<Id>, claim: Id)
    requires Wf(db)
    ensures var after := SubmitClaim(db, payer, refs, claim); Wf(after) && LegalStep(db, after)
  {
    hide Total, GoodClaims, Dedup, LinkAll;
    if SubmitKind(db, payer, refs, claim) == Ok {
      SubmitClaims(db, payer, refs, claim);
    }
  }

  // ---- reconciling ---------------------------------------------------------------------------

  /** What a reconciliation does to each row: lines absorb their share, the rest are untouched. */
  lemma RemitRow(db: Db, claim: Id, remitted: int, r: Id)
    requires ReconcileKind(db, claim, Some(remitted)) == Ok && r in db.receivables
    requires forall q :: q in db.receivables ==> db.receivables[q].balance >= 0
    ensures r in Reconcile(db, claim, Some(remitted)).receivables
    ensures var ids, shares := Lines(db, claim), LineShares(db, claim, remitted);
            var outcome := OutcomeOf(ClaimTotal(db, claim), remitted);
            var was, now := db.receivables[r], Reconcile(db, claim, Some(remitted)).receivables[r];
            && (r !in ids ==> now == was)
            && (forall i :: 0 <= i < |ids| && ids[i] == r ==>
                  && was.state == Claimed
                  && now == Absorb(was, shares[i], outcome)
                  && 0 <= shares[i] <= was.balance
                  && (outcome != OutPartial ==> shares[i] == was.balance))
  {
    var ids, shares := Lines(db, claim), LineShares(db, claim, remitted);
    var outcome := OutcomeOf(ClaimTotal(db, claim), remitted);
    LinesMembers(db, claim);
    var bs := Balances(db.receivables, ids);
    AbsorbAllFrame(db.receivables, ids, shares, outcome);
    forall i | 0 <= i < |ids| && ids[i] == r
      ensures Reconcile(db, claim, Some(remitted)).receivables[r] == Absorb(db.receivables[r], shares[i], outcome)
      ensures outcome != OutPartial ==> shares[i] == bs[i]
    {
      AbsorbAllAt(db.receivables, ids, shares, outcome, i);
      if outcome != OutPartial { FullyCovered(bs, remitted); }
    }
  }

  lemma {:induction false} AbsorbedTotals(ids: seq<Id>, shares: seq<int>, r: Id)
    requires |ids| == |shares| && Distinct(ids)
    ensures Total(AbsorbedEntries(ids, shares), OpenedTo(r)) == 0
    ensures Total(AbsorbedEntries(ids, shares), AnyAbsorbed()) == Sum(shares)
    ensures r !in ids ==> Total(AbsorbedEntries(ids, shares), AbsorbedBy(r)) == 0
    ensures forall i :: 0 <= i < |ids| && ids[i] == r ==>
      Total(AbsorbedEntries(ids, shares), AbsorbedBy(r)) == shares[i]
  {
    var n, es := |ids| - 1, AbsorbedEntries(ids, shares);
    if |ids| > 0 {
      assert es[..n] == AbsorbedEntries(ids[..n], shares[..n]);
      AbsorbedTotals(ids[..n], shares[..n], r);
      if r == ids[n] { assert r !in ids[..n]; }
    }
  }

  lemma RemitMoney(w: World, claim: Id, remitted: int)
    requires Wf(w.db) && Conserved(w) && ReconcileKind(w.db, claim, Some(remitted)) == Ok
    ensures Conserved(Step(w, Remit(claim, Some(remitted))))
  {
    hide Step, Total, Wf, ReconcileKind;
    var next := Step(w, Remit(claim, Some(remitted)));
    forall r: Id
      ensures Total(next.log, OpenedTo(r)) ==
        (if r in next.db.receivables then next.db.receivables[r].balance else 0)
        + Total(next.db.payments, PaidTo(r)) + Total(next.log, AbsorbedBy(r))
    {
      RemitMoneyOf(w, claim, remitted, r);
    }
  }

  lemma RemitMoneyOf(w: World, claim: Id, remitted: int, r: Id)
    requires Wf(w.db) && Conserved(w) && ReconcileKind(w.db, claim, Some(remitted)) == Ok
    ensures var next := Step(w, Remit(claim, Some(remitted)));
            Total(next.log, OpenedTo(r)) ==
            (if r in next.db.receivables then next.db.receivables[r].balance else 0)
            + Total(next.db.payments, PaidTo(r)) + Total(next.log, AbsorbedBy(r))
  {
    hide Total, AbsorbAll, Shares, Lines, AbsorbedEntries, ReconcileKind, ClaimTotal, GoodClaims, GoodResults;
    var db := w.db;
    var ids, shares := Lines(db, claim), LineShares(db, claim, remitted);
    var added := AbsorbedEntries(ids, shares);
    LinesMembers(db, claim);
    AbsorbAllFrame(db.receivables, ids, shares, OutcomeOf(ClaimTotal(db, claim), remitted));
    AbsorbedTotals(ids, shares, r);
    TotalConcat(w.log, added, OpenedTo(r));
    TotalConcat(w.log, added, AbsorbedBy(r));
    if r in db.receivables {
      RemitRow(db, claim, remitted, r);
      if r in ids { var i :| 0 <= i < |ids| && ids[i] == r; }
    }
  }

  /** What the lines absorb together: the whole remittance, capped by the claim total. */
  lemma LineSharesTotal(db: Db, claim: Id, remitted: int)
    requires remitted >= 0 && forall r :: r in db.receivables ==> db.receivables[r].balance >= 0
    ensures Sum(LineShares(db, claim, remitted)) == Min(remitted, ClaimTotal(db, claim))
  {
    var ids := Lines(db, claim);
    LinesMembers(db, claim);
    var bs := Balances(db.receivables, ids);
    SharesSum(bs, remitted, |bs|);
    assert bs[..|bs|] == bs && Shares(bs, remitted)[..|bs|] == Shares(bs, remitted);
  }

  lemma {:induction false} SameExisting(rs: map<Id, Receivable>, after: map<Id, Receivable>, ids: seq<Id>)
    requires rs.Keys == after.Keys
    ensures Existing(rs, ids) == Existing(after, ids)
  {
    if |ids| > 0 {
      SameExisting(rs, after, ids[..|ids| - 1]);
      assert ids[|ids| - 1] in rs.Keys <==> ids[|ids| - 1] in after.Keys;
    }
  }

  /**
   * Whatever the outcome, the claim's lines are the same receivables afterwards, and what
   * they still owe together is what the remittance did not cover.
   */
  lemma ClaimBalancesLeft(db: Db, claim: Id, remitted: int)
    requires GoodRows(db) && ReconcileKind(db, claim, Some(remitted)) == Ok
    ensures var after := Reconcile(db, claim, Some(remitted));
            && Lines(after, claim) == Lines(db, claim)
            && ClaimTotal(after, claim) == Max(0, ClaimTotal(db, claim) - remitted)
  {
    hide Reconcile, ReconcileKind, Shares, Minus, Sum, Lines;
    var ids := Lines(db, claim);
    LinesMembers(db, claim);
    SameLines(db, claim, remitted);
    BalancesAfter(db, claim, remitted);
    RemittedIsStorable(db, claim, remitted);
    BalancesLeft(Balances(db.receivables, ids), remitted);
  }

  lemma RemittedIsStorable(db: Db, claim: Id, remitted: int)
    requires ReconcileKind(db, claim, Some(remitted)) == Ok
    ensures remitted >= 0
  {}

  lemma SameLines(db: Db, claim: Id, remitted: int)
    requires ReconcileKind(db, claim, Some(remitted)) == Ok
    ensures Lines(Reconcile(db, claim, Some(remitted)), claim) == Lines(db, claim)
  {
    hide AbsorbAll, SortIds, LinkedTo, Existing, ReconcileKind, ClaimTotal, Shares;
    var after, ids := Reconcile(db, claim, Some(remitted)), Lines(db, claim);
    AbsorbAllFrame(db.receivables, ids, LineShares(db, claim, remitted), OutcomeOf(ClaimTotal(db, claim), remitted));
    SameExisting(db.receivables, after.receivables, LinkedTo(db.links, claim));
  }

  lemma BalancesAfter(db: Db, claim: Id, remitted: int)
    requires GoodRows(db) && ReconcileKind(db, claim, Some(remitted)) == Ok
    ensures var after, ids := Reconcile(db, claim, Some(remitted)), Lines(db, claim);
            && (forall i :: 0 <= i < |ids| ==> ids[i] in db.receivables && ids[i] in after.receivables)
            && Balances(after.receivables, ids)
               == Minus(Balances(db.receivables, ids), Shares(Balances(db.receivables, ids), remitted))
            && NonNegative(Balances(db.receivables, ids))
  {
    hide Reconcile, ReconcileKind, Shares, Lines, ClaimTotal, LegalRow;
    var after, ids := Reconcile(db, claim, Some(remitted)), Lines(db, claim);
    LinesMembers(db, claim);
    forall i | 0 <= i < |ids|
      ensures ids[i] in db.receivables && ids[i] in after.receivables
      ensures after.receivables[ids[i]].balance == db.receivables[ids[i]].balance - LineShares(db, claim, remitted)[i]
    {
      assert ids[i] in ids;
      RemitRow(db, claim, remitted, ids[i]);
    }
  }

  lemma RemitBalances(w: World, claim: Id, remitted: int)
    requires Wf(w.db) && RemittancesBalance(w) && ReconcileKind(w.db, claim, Some(remitted)) == Ok
    ensures RemittancesBalance(Step(w, Remit(claim, Some(remitted))))
  {
    hide Total, AbsorbAll, Lines, AbsorbedEntries, GoodClaims, GoodResults, ClaimTotal, LineShares, Sum;
    var db := w.db;
    var ids, shares := Lines(db, claim), LineShares(db, claim, remitted);
    LinesMembers(db, claim);
    LineSharesTotal(db, claim, remitted);
    AbsorbedTotals(ids, shares, 0);
    TotalConcat(w.log, AbsorbedEntries(ids, shares), AnyAbsorbed());
    var total := ClaimTotal(db, claim);
    TotalSnoc(db.remittances, Remittance(claim, remitted), Remitted());
    var result := Reconciliation(claim, total, remitted, total - remitted, OutcomeOf(total, remitted));
    TotalSnoc(db.results, result, Excess());
  }

  /** What reconciling does to one row, whatever it was. */
  lemma RemitOneRow(db: Db, claim: Id, remitted: int, r: Id)
    requires GoodRows(db) && ReconcileKind(db, claim, Some(remitted)) == Ok && r in db.receivables
    ensures r in Reconcile(db, claim, Some(remitted)).receivables
    ensures var was, now := db.receivables[r], Reconcile(db, claim, Some(remitted)).receivables[r];
            && LegalRow(was, now) && now.payer == was.payer && Storable(now.balance)
            && (IsTerminal(now.state) ==> now.balance == 0)
            && (now.state == was.state || IsTerminal(now.state))
  {
    hide Reconcile, Shares, Lines, ClaimTotal, ReconcileKind;
    RemitRow(db, claim, remitted, r);
    var ids := Lines(db, claim);
    if r in ids { var i :| 0 <= i < |ids| && ids[i] == r; }
  }

  lemma RemitRows(db: Db, claim: Id, remitted: int)
    requires GoodRows(db) && ReconcileKind(db, claim, Some(remitted)) == Ok
    ensures var after := Reconcile(db, claim, Some(remitted));
            && GoodRows(after) && LegalStep(db, after) && after.receivables.Keys == db.receivables.Keys
            && (forall r :: r in after.receivables ==>
                  || after.receivables[r].state == db.receivables[r].state
                  || IsTerminal(after.receivables[r].state))
  {
    hide LegalRow, Storable, IsTerminal, AbsorbAll, Shares, Lines, ClaimTotal;
    var after, ids := Reconcile(db, claim, Some(remitted)), Lines(db, claim);
    AbsorbAllFrame(db.receivables, ids, LineShares(db, claim, remitted), OutcomeOf(ClaimTotal(db, claim), remitted));
    assert after.payers == db.payers;
    forall r | r in db.receivables
      ensures LegalRow(db.receivables[r], after.receivables[r])
      ensures after.receivables[r].payer == db.receivables[r].payer
      ensures Storable(after.receivables[r].balance)
      ensures IsTerminal(after.receivables[r].state) ==> after.receivables[r].balance == 0
      ensures after.receivables[r].state == db.receivables[r].state || IsTerminal(after.receivables[r].state)
    {
      RemitOneRow(db, claim, remitted, r);
    }
  }

  lemma RemitTables(db: Db, claim: Id, remitted: Option<int>)
    requires Wf(db)
    ensures var after := Reconcile(db, claim, remitted); Wf(after) && LegalStep(db, after)
  {
    hide Total, AbsorbAll, Lines, ClaimTotal, GoodClaims, GoodRows, LegalStep;
    var after := Reconcile(db, claim, remitted);
    if ReconcileKind(db, claim, remitted) == Ok {
      RemitRows(db, claim, remitted.value);
      ClaimsFrame(db, after);
      forall c: Id
        ensures Total(after.results, OfClaim(c)) == Total(db.results, OfClaim(c)) + if c == claim then 1 else 0
      {
        TotalSnoc(db.results, after.results[|db.results|], OfClaim(c));
      }
    } else {
      LegalStill(db);
    }
  }

  lemma LegalStill(db: Db)
    ensures LegalStep(db, db)
  {}

  // ---- whole runs ---------------------------------------------------------------------------

  lemma StepKeeps(w: World, a: Action)
    requires Inv(w) && WellFormed(a)
    ensures Inv(Step(w, a))
    ensures LegalStep(w.db, Step(w, a).db)
    ensures KindOf(w.db, a) != Ok ==> Step(w, a) == w
  {
    hide Total, Wf, LegalStep, Conserved, RemittancesBalance, Entries;
    StepTables(w.db, a);
    if KindOf(w.db, a) == Ok {
      StepMoney(w, a);
    } else {
      RefusalChangesNothing(w, a);
    }
  }

  lemma StepTables(db: Db, a: Action)
    requires Wf(db) && WellFormed(a)
    ensures Wf(Do(db, a)) && LegalStep(db, Do(db, a))
  {
    hide Wf, LegalStep;
    match a
    case Intent(store, sale, owed, ids) => IntentTables(db, store, sale, owed, ids);
    case Pay(r, amount, version) => PayTables(db, r, amount, version);
    case Submit(payer, refs, claim) => SubmitTables(db, payer, refs, claim);
    case Remit(claim, remitted) => RemitTables(db, claim, remitted);
  }

  lemma RefusalChangesNothing(w: World, a: Action)
    requires WellFormed(a) && KindOf(w.db, a) != Ok
    ensures Step(w, a) == w
  {
    assert w.log + [] == w.log;
  }

  lemma StepMoney(w: World, a: Action)
    requires Inv(w) && WellFormed(a) && KindOf(w.db, a) == Ok
    ensures Conserved(Step(w, a)) && RemittancesBalance(Step(w, a))
  {
    hide Total, Wf, Conserved, RemittancesBalance, ReconcileKind;
    match a
    case Intent(_, _, _, _) => IntentMoney(w, a);
    case Pay(_, _, _) => PayMoney(w, a);
    case Submit(payer, refs, claim) => SubmitMoney(w, a);
    case Remit(claim, remitted) =>
      RemitReadable(w.db, claim, remitted);
      RemitMoney(w, claim, remitted.value);
      RemitBalances(w, claim, remitted.value);
  }

  lemma RemitReadable(db: Db, claim: Id, remitted: Option<int>)
    requires ReconcileKind(db, claim, remitted) == Ok
    ensures remitted.Some?
  {}

  lemma SubmitMoney(w: World, a: Action)
    requires Conserved(w) && RemittancesBalance(w) && a.Submit? && KindOf(w.db, a) == Ok
    ensures Conserved(Step(w, a)) && RemittancesBalance(Step(w, a))
  {
    hide Total, Dedup, LinkAll;
    assert w.log + [] == w.log;
  }

  /** Every reachable world satisfies the invariant. */
  lemma {:induction false} RunKeeps(payers: map<Id, Option<Id>>, sales: map<Id, Id>, acts: seq<Action>)
    requires AllWellFormed(acts)
    ensures Inv(Run(Start(payers, sales), acts))
  {
    if |acts| > 0 {
      RunKeeps(payers, sales, acts[..|acts| - 1]);
      StepKeeps(Run(Start(payers, sales), acts[..|acts| - 1]), acts[|acts| - 1]);
    }
  }

  /**
   * Conservation over every run: each receivable's original amount is its balance plus what
   * was paid plus what remittances were worth to it, so it is never collected twice over; and
   * the remittances recorded are what was absorbed plus the excess of the flagged results.
   */
  lemma MoneyConserved(payers: map<Id, Option<Id>>, sales: map<Id, Id>, acts: seq<Action>, r: Id)
    requires AllWellFormed(acts)
    ensures var w := Run(Start(payers, sales), acts);
            && (r in w.db.receivables ==>
                  Total(w.log, OpenedTo(r)) == w.db.receivables[r].balance
                    + Total(w.db.payments, PaidTo(r)) + Total(w.log, AbsorbedBy(r)))
            && Total(w.db.payments, PaidTo(r)) + Total(w.log, AbsorbedBy(r)) <= Total(w.log, OpenedTo(r))
            && Total(w.db.remittances, Remitted()) ==
                 Total(w.log, AnyAbsorbed()) + Total(w.db.results, Excess())
  {
    hide Total, Run;
    RunKeeps(payers, sales, acts);
  }

  lemma TerminalStep(w: World, a: Action, r: Id)
    requires Inv(w) && WellFormed(a)
    requires r in w.db.receivables && IsTerminal(w.db.receivables[r].state)
    ensures r in Step(w, a).db.receivables
    ensures Step(w, a).db.receivables[r] == w.db.receivables[r] && w.db.receivables[r].balance == 0
  {
    hide Step, Conserved, RemittancesBalance, GoodClaims, GoodResults;
    StepKeeps(w, a);
  }

  /** A terminal receivable keeps its whole row, balance zero, through any continuation of a run. */
  lemma {:induction false} TerminalForever(w: World, acts: seq<Action>, r: Id)
    requires Inv(w) && AllWellFormed(acts)
    requires r in w.db.receivables && IsTerminal(w.db.receivables[r].state)
    ensures Inv(Run(w, acts))
    ensures r in Run(w, acts).db.receivables
    ensures Run(w, acts).db.receivables[r] == w.db.receivables[r] && w.db.receivables[r].balance == 0
  {
    hide Step;
    if |acts| == 0 {
      assert w.db.receivables[r].balance == 0;
    } else {
      hide Inv;
      var n := |acts| - 1;
      TerminalForever(w, acts[..n], r);
      StepKeeps(Run(w, acts[..n]), acts[n]);
      TerminalStep(Run(w, acts[..n]), acts[n], r);
    }
  }
}
