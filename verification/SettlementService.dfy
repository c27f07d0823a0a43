/** The settlement services over their tables, statement by statement. */
module SettlementService {
  import opened Basics
  import opened Money
  import opened ReceivableStates
  import opened Decisions
  import opened Fifo
  import opened Identifiers
  import opened Settlement

  lemma SingleStore(stores: seq<Id>, s: set<Id>)
    requires |stores| > 0 && s == set i | 0 <= i < |stores| :: stores[i]
    ensures |s| == 1 <==> forall i :: 0 <= i < |stores| ==> stores[i] == stores[0]
  {
    assert stores[0] in s;
    if |s| == 1 {
      assert |s - {stores[0]}| == 0;
      assert s == {stores[0]};
      forall i | 0 <= i < |stores| ensures stores[i] == stores[0] { assert stores[i] in s; }
    }
    if forall i :: 0 <= i < |stores| ==> stores[i] == stores[0] {
      assert s == {stores[0]};
    }
  }

  lemma EmptyApportion(rs: map<Id, Receivable>, outcome: Outcome)
    ensures AbsorbAll(rs, [], [], outcome) == rs
  {}

  datatype LineRow = LineRow(id: Id, state: ReceivableState, outstandingBalance: string)

  /** A reconcilable batch: not empty, and every line still claimed. */
  predicate AllClaimed(lines: seq<LineRow>) {
    |lines| > 0 && forall i :: 0 <= i < |lines| ==> lines[i].state == Claimed
  }

  function RowOf(rs: map<Id, Receivable>, r: Id): LineRow
    requires r in rs
  {
    LineRow(r, rs[r].state, FromScaled(rs[r].balance))
  }

  /** Claim total and decision computed from the rendered line balances; none is a throw. */
  method DecideOnLines(lines: seq<LineRow>, remittedAmount: string, ghost bs: seq<int>)
    returns (d: Option<(int, ReconcileDecision)>)
    requires |lines| == |bs| && NonNegative(bs)
    requires forall i :: 0 <= i < |lines| ==> lines[i].outstandingBalance == FromScaled(bs[i])
    ensures d.Some? <==> ToScaledUnsigned(remittedAmount).Some?
    ensures d.Some? ==>
      && d.value.0 == Sum(bs)
      && d.value.1.outcome == OutcomeOf(Sum(bs), ToScaledUnsigned(remittedAmount).value)
      && ToScaledSigned(d.value.1.variance) == Some(Sum(bs) - ToScaledUnsigned(remittedAmount).value)
  {
    hide ToScaledUnsigned, ToScaledSigned, FromScaled, DecideReconciliation;
    var amounts := seq(|lines|, i requires 0 <= i < |lines| => lines[i].outstandingBalance);
    forall i | 0 <= i < |lines| ensures ToScaledUnsigned(amounts[i]) == Some(bs[i]) {
      UnsignedRoundTripIff(bs[i]);
    }
    var claimed := SumScaled(amounts);
    assert Values(amounts) == bs;
    SumNonNegative(bs);
    UnsignedRoundTripIff(Sum(bs));
    var decision := DecideReconciliation(claimed.value, remittedAmount);
    if ToScaledUnsigned(remittedAmount).None? {
      Unreadable(claimed.value, remittedAmount);
      return None;
    }
    ReconciliationOf(Sum(bs), remittedAmount);
    VarianceReads(Sum(bs) - ToScaledUnsigned(remittedAmount).value, decision.value.variance);
    d := Some((ToScaledUnsigned(claimed.value).value, decision.value));
  }

  lemma Unreadable(claimed: string, remitted: string)
    requires ToScaledUnsigned(remitted).None?
    ensures DecideReconciliation(claimed, remitted).None?
  {}

  class SettlementService {
    var payers: map<Id, Option<Id>>
    var sales: map<Id, Id>
    var receivables: map<Id, Receivable>
    var claims: map<Id, Claim>
    var links: seq<Link>
    var payments: seq<Payment>
    var remittances: seq<Remittance>
    var results: seq<Reconciliation>

    ghost function Tables(): Db
      reads this
    {
      Db(payers, sales, receivables, claims, links, payments, remittances, results)
    }

    /** The column CHECKs the database enforces on stored balances. */
    ghost predicate Valid()
      reads this
    {
      forall r :: r in receivables ==> Storable(receivables[r].balance)
    }

    method OpenFromIntent(store: Id, sale: Id, owed: seq<Owed>, ids: seq<Id>) returns (kind: Kind)
      requires Valid() && |owed| == |ids|
      modifies this
      ensures Valid()
      ensures kind == OpenKind(old(Tables()), store, sale, owed, ids)
      ensures Tables() == Settlement.OpenFromIntent(old(Tables()), store, sale, owed, ids)
    {
      for i := 0 to |owed|
        invariant Tables() == old(Tables())
        invariant forall j :: 0 <= j < i ==> PayerInScope(Tables(), owed[j].payer, store)
      {
        var p := owed[i].payer;
        if !(p in payers && (payers[p].None? || payers[p].value == store)) { return Conflict; }
      }
      var begin := receivables;
      var saleKnown := sale in sales && sales[sale] == store;
      for i := 0 to |owed|
        invariant InsertRows(receivables, saleKnown, store, owed[i..], ids[i..])
               == InsertRows(begin, saleKnown, store, owed, ids)
        invariant Tables() == old(Tables()).(receivables := receivables)
        invariant Valid()
      {
        if !Storable(owed[i].amount) || ids[i] in receivables {
          receivables := begin;
          return Failed;
        }
        if !saleKnown {
          receivables := begin;
          return Conflict;
        }
        receivables := receivables[ids[i] := NewReceivable(owed[i], store)];
      }
      kind := Ok;
    }

    method ApplyPayment(r: Id, amount: string, version: int) returns (kind: Kind)
      requires Valid()
      modifies this
      ensures Valid()
      ensures kind == PayKind(old(Tables()), r, ToScaledSigned(amount), version)
      ensures Tables() == Settlement.ApplyPayment(old(Tables()), r, ToScaledSigned(amount), version)
    {
      hide ToScaledSigned, FromScaled;
      if r !in receivables { return NotFound; }
      var row := receivables[r];
      if row.version != version || row.state == Settled || row.state == Flagged { return Conflict; }
      if ToScaledSigned(amount).Some? { ApplicationExact(row.balance, amount); }
      var decision := DecideApplication(FromScaled(row.balance), amount);
      if decision.None? { return Failed; }
      if decision.value.OverApplication? { return Conflict; }
      var paid := ToScaledSigned(amount).value;
      if paid <= 0 { return Failed; }
      payments := payments + [Payment(r, paid)];
      var newBalance := ToScaledSigned(decision.value.newBalance).value;
      receivables := receivables[r := row.(balance := newBalance,
                                           state := decision.value.newState,
                                           version := row.version + 1)];
      kind := Ok;
    }

    /** Locks and validates the batch; the common store, or none for a conflict. */
    method LockBatch(payer: Id, refs: seq<Id>) returns (store: Option<Id>)
      ensures store.Some? <==> OneBatch(receivables, payer, refs)
      ensures store.Some? ==> store.value == receivables[refs[0]].store
    {
      var found: seq<Id> := [];
      for i := 0 to |refs|
        invariant |found| <= i
        invariant |found| == i <==> found == refs[..i]
        invariant |found| == i <==> forall j :: 0 <= j < i ==> refs[j] in receivables
      {
        if refs[i] in receivables { found := found + [refs[i]]; }
      }
      if |found| != |refs| { return None; }
      if exists i :: 0 <= i < |refs| && !Claimable(receivables[refs[i]].state) { return None; }
      if exists i :: 0 <= i < |refs| && receivables[refs[i]].payer != payer { return None; }
      var stores := seq(|refs|, i requires 0 <= i < |refs| && refs[i] in receivables reads this =>
        receivables[refs[i]].store);
      var storeIds := set i | 0 <= i < |refs| :: stores[i];
      if |refs| > 0 { SingleStore(stores, storeIds); }
      if |storeIds| != 1 { return None; }
      store := Some(stores[0]);
      forall i | 0 <= i < |refs| ensures receivables[refs[i]].store == receivables[refs[0]].store {
        assert stores[i] == stores[0];
      }
    }

    method SubmitClaim(payer: Id, receivableRefs: seq<Id>, claimId: Id) returns (kind: Kind)
      requires Valid()
      modifies this
      ensures Valid()
      ensures kind == SubmitKind(old(Tables()), payer, receivableRefs, claimId)
      ensures Tables() == Settlement.SubmitClaim(old(Tables()), payer, receivableRefs, claimId)
    {
      hide SubmitKind, OneBatch, Dedup;
      SubmitKindOf(Tables(), payer, receivableRefs, claimId);
      if payer !in payers { return NotFound; }
      var refs := Dedup(receivableRefs);
      var storeId := LockBatch(payer, refs);
      BatchOfDedup(receivables, payer, receivableRefs);
      if storeId.None? { return Conflict; }
      if claimId in claims { return Failed; }
      var claim := Claim(payer, storeId.value, Submitted, 0);
      claims := claims[claimId := claim];
      for i := 0 to |refs|
        invariant links == old(links) + LinkAll(claimId, refs)[..i]
        invariant Tables() == old(Tables()).(claims := old(claims)[claimId := claim], links := links)
      {
        links := links + [Link(claimId, refs[i])];
      }
      assert LinkAll(claimId, refs)[..|refs|] == LinkAll(claimId, refs);
      receivables := MarkClaimed(receivables, refs);
      assert MarkClaimed(old(receivables), refs) == MarkClaimed(old(receivables), receivableRefs);
      kind := Ok;
    }

    /** The locked lines in id order, balances rendered as text. */
    method SelectLines(claimRef: Id) returns (lines: seq<LineRow>)
      ensures |lines| == |Settlement.Lines(Tables(), claimRef)|
      ensures forall i :: 0 <= i < |lines| ==>
        && Settlement.Lines(Tables(), claimRef)[i] in receivables
        && lines[i] == RowOf(receivables, Settlement.Lines(Tables(), claimRef)[i])
      ensures !AllClaimed(lines) <==>
        || |Settlement.Lines(Tables(), claimRef)| == 0
        || exists r :: r in Settlement.Lines(Tables(), claimRef) && r in receivables && receivables[r].state != Claimed
    {
      LinesMembers(Tables(), claimRef);
      var ids := SortIds(Existing(receivables, LinkedTo(links, claimRef)));
      lines := seq(|ids|, i requires 0 <= i < |ids| && ids[i] in receivables reads this => RowOf(receivables, ids[i]));
    }

    /** Settled or flagged: the debt of every line is cleared. */
    method ClearLines(lines: seq<LineRow>, outcome: Outcome, ghost bs: seq<int>, ghost ids: seq<Id>,
                      ghost remitted: int)
      requires outcome != OutPartial
      requires |lines| == |bs| == |ids| && NonNegative(bs) && Distinct(ids)
      requires Sum(bs) <= remitted
      requires forall i :: 0 <= i < |lines| ==>
        lines[i].id == ids[i] && ids[i] in receivables && receivables[ids[i]].balance == bs[i]
      modifies this`receivables
      ensures receivables == AbsorbAll(old(receivables), ids, Shares(bs, remitted), outcome)
    {
      hide AbsorbAll;
      FullyCovered(bs, remitted);
      EmptyApportion(receivables, outcome);
      ghost var begin := receivables;
      var nextState := if outcome == OutSettled then Settled else Flagged;
      for i := 0 to |lines|
        invariant receivables == AbsorbAll(begin, ids[..i], bs[..i], outcome)
      {
        AbsorbNext(begin, ids, bs, outcome, i);
        var id := lines[i].id;
        receivables := receivables[id := receivables[id].(
          balance := 0, state := nextState, version := receivables[id].version + 1)];
      }
      assert ids[..|ids|] == ids && bs[..|bs|] == bs;
    }

    /** The first-in-first-out loop over the locked lines. */
    method ApportionPartial(lines: seq<LineRow>, remittedAmount: string, ghost bs: seq<int>, ghost ids: seq<Id>)
      requires ToScaledUnsigned(remittedAmount).Some? && ToScaledUnsigned(remittedAmount).value >= 0
      requires |lines| == |bs| == |ids| && NonNegative(bs) && Distinct(ids)
      requires forall i :: 0 <= i < |lines| ==>
        && lines[i].id == ids[i]
        && ids[i] in receivables && receivables[ids[i]].balance == bs[i]
        && lines[i].outstandingBalance == FromScaled(bs[i])
      modifies this`receivables
      ensures receivables ==
        AbsorbAll(old(receivables), ids, Shares(bs, ToScaledUnsigned(remittedAmount).value), OutPartial)
    {
      hide ToScaledUnsigned, FromScaled, AbsorbAll;
      var remaining := ToScaledUnsigned(remittedAmount).value;
      ghost var total, shares := remaining, Shares(bs, remaining);
      ghost var begin := receivables;
      EmptyApportion(begin, OutPartial);
      var i := 0;
      while i < |lines|
        invariant 0 <= i <= |lines|
        invariant remaining == Max(0, total - Sum(bs[..i]))
        invariant receivables == AbsorbAll(begin, ids[..i], shares[..i], OutPartial)
      {
        if remaining <= 0 { break; }
        UnsignedRoundTripIff(bs[i]);
        AbsorbNext(begin, ids, shares, OutPartial, i);
        assert bs[..i + 1][..i] == bs[..i];
        var line := lines[i];
        var balance := ToScaledUnsigned(line.outstandingBalance).value;
        var applied := if remaining < balance then remaining else balance;
        assert applied == shares[i];
        i := i + 1;
        if applied <= 0 {
          assert receivables[line.id := receivables[line.id]] == receivables;
          continue;
        }
        var newBalance := balance - applied;
        remaining := remaining - applied;
        receivables := receivables[line.id := receivables[line.id].(
          balance := newBalance, version := receivables[line.id].version + 1)];
      }
      forall j | i <= j < |ids| ensures shares[j] == 0 { SumMonotone(bs, i, j); }
      NothingLeft(begin, ids, shares, i);
    }

    /** Moves the money: clear every line, or apportion what was remitted. */
    method ApplyOutcome(lines: seq<LineRow>, remittedAmount: string, outcome: Outcome, ghost bs: seq<int>,
                        ghost ids: seq<Id>)
      requires Valid()
      requires ToScaledUnsigned(remittedAmount).Some? && ToScaledUnsigned(remittedAmount).value >= 0
      requires |lines| == |bs| == |ids| && NonNegative(bs) && Distinct(ids)
      requires outcome == OutcomeOf(Sum(bs), ToScaledUnsigned(remittedAmount).value)
      requires forall i :: 0 <= i < |lines| ==>
        && lines[i].id == ids[i]
        && ids[i] in receivables && receivables[ids[i]].balance == bs[i]
        && lines[i].outstandingBalance == FromScaled(bs[i])
      modifies this`receivables
      ensures Valid()
      ensures receivables ==
        AbsorbAll(old(receivables), ids, Shares(bs, ToScaledUnsigned(remittedAmount).value), outcome)
    {
      hide ToScaledUnsigned, FromScaled, AbsorbAll, Shares;
      ghost var remitted := ToScaledUnsigned(remittedAmount).value;
      AbsorbKeepsStorable(receivables, ids, bs, remitted, outcome);
      if outcome == OutSettled || outcome == OutFlagged {
        ClearLines(lines, outcome, bs, ids, remitted);
      } else {
        ApportionPartial(lines, remittedAmount, bs, ids);
      }
    }

    method ReconcileRemittance(claimRef: Id, remittedAmount: string) returns (kind: Kind)
      requires Valid()
      modifies this
      ensures Valid()
      ensures kind == ReconcileKind(old(Tables()), claimRef, ToScaledUnsigned(remittedAmount))
      ensures Tables() == Reconcile(old(Tables()), claimRef, ToScaledUnsigned(remittedAmount))
    {
      hide ToScaledUnsigned, ToScaledSigned, FromScaled, AbsorbAll, Lines, Sum, Shares, AllClaimed;
      if claimRef !in claims { return NotFound; }
      var c := claims[claimRef];
      if c.status == Reconciled { return Conflict; }
      ghost var db := Tables();
      ghost var ids := Settlement.Lines(db, claimRef);
      LinesMembers(db, claimRef);
      var lines := SelectLines(claimRef);
      if !AllClaimed(lines) { return Conflict; }
      ghost var bs := Balances(receivables, ids);
      var decided := DecideOnLines(lines, remittedAmount, bs);
      if decided.None? { return Failed; }
      var claimed, decision := decided.value.0, decided.value.1;
      var remitted := ToScaledUnsigned(remittedAmount).value;
      if !Storable(remitted) { return Failed; }
      var begin := remittances;
      remittances := remittances + [Remittance(claimRef, remitted)];
      if !FitsNumeric(claimed) {
        remittances := begin;
        return Failed;
      }
      var variance := ToScaledSigned(decision.variance).value;
      results := results + [Reconciliation(claimRef, claimed, remitted, variance, decision.outcome)];
      ApplyOutcome(lines, remittedAmount, decision.outcome, bs, ids);
      claims := claims[claimRef := c.(status := Reconciled, version := c.version + 1)];
      kind := Ok;
    }
  }

  predicate OneBatch(rs: map<Id, Receivable>, payer: Id, refs: seq<Id>) {
    && |refs| > 0
    && forall r :: r in refs ==>
         && r in rs && Claimable(rs[r].state) && rs[r].payer == payer
         && refs[0] in rs && rs[r].store == rs[refs[0]].store
  }

  lemma SubmitKindOf(db: Db, payer: Id, refs: seq<Id>, claim: Id)
    ensures SubmitKind(db, payer, refs, claim) ==
      if payer !in db.payers then NotFound
      else if !OneBatch(db.receivables, payer, refs) then Conflict
      else if claim in db.claims then Failed
      else Ok
    ensures OneBatch(db.receivables, payer, refs) ==> |refs| > 0 && refs[0] in db.receivables
  {
    if |refs| > 0 { assert refs[0] in refs; }
  }

  lemma BatchOfDedup(rs: map<Id, Receivable>, payer: Id, refs: seq<Id>)
    ensures OneBatch(rs, payer, Dedup(refs)) <==> OneBatch(rs, payer, refs)
    ensures OneBatch(rs, payer, refs) ==>
      && |refs| > 0 && refs[0] in rs && |Dedup(refs)| > 0 && Dedup(refs)[0] in rs
      && rs[Dedup(refs)[0]].store == rs[refs[0]].store
  {
    var d := Dedup(refs);
    if |refs| > 0 { assert refs[0] in d; }
    if |d| > 0 { assert d[0] in refs; }
  }
}
