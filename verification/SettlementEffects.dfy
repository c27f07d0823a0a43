/**
 * What each settlement operation does, in the columns of its tables: when it is accepted, what
 * becomes of every row, and what stays.
 */
module SettlementEffects {
  import opened Basics
  import opened ReceivableStates
  import opened Decisions
  import opened Fifo
  import opened Identifiers
  import opened Settlement
  import opened SettlementRuns

  // ---- opening -----------------------------------------------------------------------------------

  /** Every owed amount becomes an open receivable of its payer at the store; nothing else changes. */
  lemma OpenEffects(db: Db, store: Id, sale: Id, owed: seq<Owed>, ids: seq<Id>)
    requires |owed| == |ids| && OpenKind(db, store, sale, owed, ids) == Ok
    ensures var after := OpenFromIntent(db, store, sale, owed, ids);
            && after == db.(receivables := after.receivables)
            && (forall r :: r in after.receivables <==> r in db.receivables || r in ids)
            && (forall r :: r in db.receivables ==> r !in ids && after.receivables[r] == db.receivables[r])
            && (forall i :: 0 <= i < |ids| ==>
                  var row := after.receivables[ids[i]];
                  && row.payer == owed[i].payer && row.store == store && row.balance == owed[i].amount
                  && row.state == Open && row.version == 0)
  {
    hide InsertRows;
    InsertRowsAt(db.receivables, SaleKnown(db, sale, store), store, owed, ids);
  }

  lemma {:induction false} InsertsOkIff(rs: map<Id, Receivable>, saleKnown: bool, store: Id, owed: seq<Owed>,
                                        ids: seq<Id>)
    requires |owed| == |ids|
    ensures InsertRows(rs, saleKnown, store, owed, ids).kind == Ok <==>
      && Distinct(ids) && (|owed| > 0 ==> saleKnown)
      && forall i :: 0 <= i < |ids| ==> ids[i] !in rs && 0 <= owed[i].amount < 10_000_000_000_000_000_000
    decreases |owed|
  {
    if |owed| > 0 && saleKnown && Storable(owed[0].amount) && ids[0] !in rs {
      var rest := rs[ids[0] := NewReceivable(owed[0], store)];
      InsertsOkIff(rest, saleKnown, store, owed[1..], ids[1..]);
      assert ids == [ids[0]] + ids[1..] && owed == [owed[0]] + owed[1..];
    }
  }

  /** Accepted exactly when every payer is in scope, every row can be stored and the sale is the store's. */
  lemma OpenAcceptedIff(db: Db, store: Id, sale: Id, owed: seq<Owed>, ids: seq<Id>)
    requires |owed| == |ids|
    ensures OpenKind(db, store, sale, owed, ids) == Ok <==>
      && (forall i :: 0 <= i < |owed| ==>
            var p := owed[i].payer;
            p in db.payers && (db.payers[p] == None || db.payers[p] == Some(store)))
      && Distinct(ids) && (|owed| > 0 ==> sale in db.sales && db.sales[sale] == store)
      && forall i :: 0 <= i < |ids| ==>
           ids[i] !in db.receivables && 0 <= owed[i].amount < 10_000_000_000_000_000_000
  {
    hide InsertRows;
    InsertsOkIff(db.receivables, SaleKnown(db, sale, store), store, owed, ids);
  }

  // ---- paying ------------------------------------------------------------------------------------

  /**
   * A payment is accepted exactly when it carries the row's version and is positive and at
   * most the balance of a row that is not settled or flagged.
   */
  lemma PayAcceptedIff(db: Db, r: Id, amount: Option<int>, version: int)
    ensures PayKind(db, r, amount, version) == Ok <==>
      && r in db.receivables && db.receivables[r].version == version
      && db.receivables[r].state != Settled && db.receivables[r].state != Flagged
      && amount.Some? && 0 < amount.value <= db.receivables[r].balance
    ensures PayKind(db, r, amount, version) == NotFound <==> r !in db.receivables
    ensures r in db.receivables && db.receivables[r].version != version ==> PayKind(db, r, amount, version) == Conflict
  {}

  /** The amount leaves the balance and is recorded once; the row is settled exactly when nothing is left. */
  lemma PayEffects(db: Db, r: Id, amount: Option<int>, version: int)
    requires PayKind(db, r, amount, version) == Ok
    ensures var after := ApplyPayment(db, r, amount, version);
            && after == db.(receivables := after.receivables, payments := db.payments + [Payment(r, amount.value)])
            && after.receivables.Keys == db.receivables.Keys
            && (forall s :: s in db.receivables && s != r ==> after.receivables[s] == db.receivables[s])
            && var was, now := db.receivables[r], after.receivables[r];
               && now.balance + amount.value == was.balance && now.version == was.version + 1
               && now.payer == was.payer && now.store == was.store
               && (now.state == Settled <==> now.balance == 0)
               && (now.state == PartiallyApplied <==> now.balance > 0)
  {}

  // ---- claiming ----------------------------------------------------------------------------------

  /** Accepted exactly for a non-empty batch of one known payer and one store, all of it open or partly paid. */
  lemma SubmitAcceptedIff(db: Db, payer: Id, refs: seq<Id>, claim: Id)
    ensures SubmitKind(db, payer, refs, claim) == Ok <==>
      && payer in db.payers && claim !in db.claims && |refs| > 0
      && forall i :: 0 <= i < |refs| ==>
           && refs[i] in db.receivables && refs[0] in db.receivables
           && db.receivables[refs[i]].state in {Open, PartiallyApplied}
           && db.receivables[refs[i]].payer == payer && db.receivables[refs[i]].store == db.receivables[refs[0]].store
    ensures SubmitKind(db, payer, refs, claim) == NotFound <==> payer !in db.payers
  {
    assert |refs| > 0 ==> refs[0] in refs;
  }

  /** The claim starts submitted at version 0, for its payer and its receivables' store. */
  lemma SubmittedClaim(db: Db, payer: Id, refs: seq<Id>, claim: Id)
    requires SubmitKind(db, payer, refs, claim) == Ok
    ensures var after := SubmitClaim(db, payer, refs, claim);
            && after == db.(claims := after.claims, links := after.links, receivables := after.receivables)
            && claim in after.claims && after.claims.Keys == db.claims.Keys + {claim}
            && (forall c :: c in db.claims ==> after.claims[c] == db.claims[c])
            && after.claims[claim].payer == payer && after.claims[claim].status == Submitted
            && after.claims[claim].version == 0
            && (forall r :: r in refs ==> r in db.receivables && after.claims[claim].store == db.receivables[r].store)
  {
    hide Dedup, LinkAll, MarkClaimed;
    assert refs[0] in refs;
  }

  /** Each named receivable is linked to the claim once, and nothing else is linked. */
  lemma SubmittedLinks(db: Db, payer: Id, refs: seq<Id>, claim: Id)
    requires SubmitKind(db, payer, refs, claim) == Ok
    ensures var after := SubmitClaim(db, payer, refs, claim);
            && db.links <= after.links && Distinct(after.links[|db.links|..])
            && (forall l :: l in after.links[|db.links|..] <==> l.claim == claim && l.receivable in refs)
  {
    hide Dedup, MarkClaimed, SubmitKind;
    var d := Dedup(refs);
    var added := LinkAll(claim, d);
    assert (db.links + added)[|db.links|..] == added;
    forall r | r in refs ensures Link(claim, r) in added {
      var i :| 0 <= i < |d| && d[i] == r;
      assert added[i] == Link(claim, r);
    }
  }

  /** Each named receivable becomes claimed and owes the same; the others stay. */
  lemma SubmittedReceivables(db: Db, payer: Id, refs: seq<Id>, claim: Id)
    requires SubmitKind(db, payer, refs, claim) == Ok
    ensures var after := SubmitClaim(db, payer, refs, claim);
            && after.receivables.Keys == db.receivables.Keys
            && forall r :: r in db.receivables ==>
                 var was, now := db.receivables[r], after.receivables[r];
                 if r in refs then
                   && now.state == Claimed && now.balance == was.balance && now.version == was.version + 1
                   && now.payer == was.payer && now.store == was.store
                 else now == was
  {
    hide Dedup, LinkAll, SubmitKind;
  }

  // ---- reconciling ---------------------------------------------------------------------------------

  /**
   * A remittance is accepted exactly for a claim not yet reconciled with lines, every line
   * still claimed, and amounts the columns hold.
   */
  lemma ReconcileAcceptedIff(db: Db, claim: Id, remitted: Option<int>)
    requires forall l :: l in db.links ==> l.receivable in db.receivables
    ensures ReconcileKind(db, claim, remitted) == Ok <==>
      && claim in db.claims && db.claims[claim].status != Reconciled
      && (exists r :: Link(claim, r) in db.links)
      && (forall r :: Link(claim, r) in db.links ==> db.receivables[r].state == Claimed)
      && remitted.Some? && 0 <= remitted.value < 10_000_000_000_000_000_000
      && -10_000_000_000_000_000_000 < ClaimTotal(db, claim) < 10_000_000_000_000_000_000
    ensures ReconcileKind(db, claim, remitted) == NotFound <==> claim !in db.claims
  {
    hide ClaimTotal, Lines;
    LinesMembers(db, claim);
    var ids := Lines(db, claim);
    assert |ids| > 0 ==> ids[0] in ids;
    if r :| Link(claim, r) in db.links { assert r in ids; }
  }

  /** The lines of a claim are its linked receivables, in id order. */
  lemma LinesInOrder(db: Db, claim: Id)
    ensures Ascending(Lines(db, claim))
    ensures forall r :: r in Lines(db, claim) <==> Link(claim, r) in db.links && r in db.receivables
  {
    SortIdsSorts(Existing(db.receivables, LinkedTo(db.links, claim)));
    LinesMembers(db, claim);
  }

  /**
   * Every line ends settled at 0 when the remittance is exactly the claim total, flagged at 0
   * when it is more, and claimed when it is less; no other receivable changes.
   */
  lemma LinesAfter(db: Db, claim: Id, remitted: int, r: Id)
    requires GoodRows(db) && ReconcileKind(db, claim, Some(remitted)) == Ok && r in db.receivables
    ensures var after, total := Reconcile(db, claim, Some(remitted)), ClaimTotal(db, claim);
            && r in after.receivables
            && var was, now := db.receivables[r], after.receivables[r];
               && (Link(claim, r) !in db.links ==> now == was)
               && (Link(claim, r) in db.links ==>
                     && (now.state == Settled <==> remitted == total)
                     && (now.state == Flagged <==> remitted > total)
                     && (now.state == Claimed <==> remitted < total)
                     && (remitted >= total ==> now.balance == 0)
                     && 0 <= now.balance <= was.balance
                     && now.payer == was.payer && now.store == was.store
                     && now.version == was.version + if remitted < total && now.balance == was.balance then 0 else 1)
  {
    hide Reconcile, ReconcileKind, Shares, Lines, ClaimTotal;
    LinesInOrder(db, claim);
    RemitRow(db, claim, remitted, r);
    var ids := Lines(db, claim);
    if r in ids { var i :| 0 <= i < |ids| && ids[i] == r; }
  }

  lemma EarlierCleared(bs: seq<int>, remitted: int, i: nat, j: nat)
    requires NonNegative(bs) && remitted >= 0 && i < j < |bs|
    ensures Shares(bs, remitted)[j] > 0 ==> Shares(bs, remitted)[i] == bs[i]
  {
    hide Shares, Frontier;
    PrefixCleared(bs, remitted);
  }

  /** What a line owes afterwards is its balance less its share. */
  lemma LineBalance(db: Db, claim: Id, remitted: int, i: nat)
    requires GoodRows(db) && ReconcileKind(db, claim, Some(remitted)) == Ok && i < |Lines(db, claim)|
    ensures var r := Lines(db, claim)[i];
            && r in db.receivables && r in Reconcile(db, claim, Some(remitted)).receivables
            && i < |LineShares(db, claim, remitted)|
            && Reconcile(db, claim, Some(remitted)).receivables[r].balance
               == db.receivables[r].balance - LineShares(db, claim, remitted)[i]
  {
    hide Reconcile, ReconcileKind, Shares, Lines, ClaimTotal;
    LinesMembers(db, claim);
    var r := Lines(db, claim)[i];
    assert r in Lines(db, claim);
    RemitRow(db, claim, remitted, r);
  }

  /** First in, first out by id: a line is reduced only if every line with a smaller id ends at 0. */
  lemma SmallestFirst(db: Db, claim: Id, remitted: int, r: Id, s: Id)
    requires GoodRows(db) && ReconcileKind(db, claim, Some(remitted)) == Ok
    requires Link(claim, r) in db.links && Link(claim, s) in db.links && r in db.receivables && s in db.receivables
    requires r < s
    ensures var after := Reconcile(db, claim, Some(remitted));
            && r in after.receivables && s in after.receivables
            && (after.receivables[s].balance < db.receivables[s].balance ==> after.receivables[r].balance == 0)
  {
    hide Reconcile, ReconcileKind, Shares, Lines, ClaimTotal, GoodRows;
    LinesInOrder(db, claim);
    LinesMembers(db, claim);
    var ids := Lines(db, claim);
    var i :| 0 <= i < |ids| && ids[i] == r;
    var j :| 0 <= j < |ids| && ids[j] == s;
    assert i < j;
    RemittedIsStorable(db, claim, remitted);
    LineBalance(db, claim, remitted, i);
    LineBalance(db, claim, remitted, j);
    NonNegativeLines(db, claim);
    EarlierCleared(Balances(db.receivables, ids), remitted, i, j);
  }

  lemma NonNegativeLines(db: Db, claim: Id)
    requires GoodRows(db)
    ensures forall i :: 0 <= i < |Lines(db, claim)| ==> Lines(db, claim)[i] in db.receivables
    ensures NonNegative(Balances(db.receivables, Lines(db, claim)))
  {
    hide Lines;
    LinesMembers(db, claim);
    assert forall i :: 0 <= i < |Lines(db, claim)| ==> Lines(db, claim)[i] in Lines(db, claim);
  }

  /** One remittance and one result are recorded, with the true variance, and the claim is closed. */
  lemma ReconcileRecords(db: Db, claim: Id, remitted: int)
    requires ReconcileKind(db, claim, Some(remitted)) == Ok
    ensures var after, total := Reconcile(db, claim, Some(remitted)), ClaimTotal(db, claim);
            && |after.remittances| == |db.remittances| + 1 && db.remittances <= after.remittances
            && after.remittances[|db.remittances|].claim == claim
            && after.remittances[|db.remittances|].amount == remitted
            && |after.results| == |db.results| + 1 && db.results <= after.results
            && var x := after.results[|db.results|];
               && x.claim == claim && x.claimed == total && x.remitted == remitted
               && x.variance == x.claimed - x.remitted
               && (x.outcome == OutSettled <==> remitted == total)
               && (x.outcome == OutFlagged <==> remitted > total)
               && (x.outcome == OutPartial <==> remitted < total)
    ensures var after := Reconcile(db, claim, Some(remitted));
            && after.payers == db.payers && after.sales == db.sales && after.links == db.links
            && after.payments == db.payments && after.claims.Keys == db.claims.Keys
            && (forall c :: c in db.claims && c != claim ==> after.claims[c] == db.claims[c])
            && var was, now := db.claims[claim], after.claims[claim];
               && now.status == Reconciled && now.version == was.version + 1
               && now.payer == was.payer && now.store == was.store
  {
    hide AbsorbAll, Lines, Shares, ClaimTotal;
  }
}
