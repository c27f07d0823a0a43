/** Ordering of identifiers: time-ordered UUIDs are modelled by their 128-bit number. */
module Identifiers {
  import opened Basics

  type Id = nat

  predicate Ascending(s: seq<Id>) { forall i, j :: 0 <= i < j < |s| ==> s[i] < s[j] }

  function Insert(s: seq<Id>, x: Id): seq<Id> {
    if |s| == 0 || x < s[0] then [x] + s
    else if x == s[0] then s
    else [s[0]] + Insert(s[1..], x)
  }

  lemma {:induction false} InsertKeeps(s: seq<Id>, x: Id)
    requires Ascending(s)
    ensures Ascending(Insert(s, x))
    ensures forall y :: y in Insert(s, x) <==> y in s || y == x
  {
    if |s| > 0 && x > s[0] {
      InsertKeeps(s[1..], x);
      assert s == [s[0]] + s[1..];
      var t := Insert(s[1..], x);
      forall j | 0 <= j < |t| ensures s[0] < t[j] {
        assert t[j] in t;
      }
    }
  }

  /** `ORDER BY id` over a set of distinct ids. */
  function SortIds(s: seq<Id>): seq<Id> {
    if |s| == 0 then [] else Insert(SortIds(s[..|s| - 1]), s[|s| - 1])
  }

  lemma {:induction false} SortIdsSorts(s: seq<Id>)
    ensures Ascending(SortIds(s)) && Distinct(SortIds(s))
    ensures forall y :: y in SortIds(s) <==> y in s
  {
    if |s| > 0 {
      SortIdsSorts(s[..|s| - 1]);
      InsertKeeps(SortIds(s[..|s| - 1]), s[|s| - 1]);
      assert s == s[..|s| - 1] + [s[|s| - 1]];
    }
  }

  /** `[...new Set(refs)]`: first occurrences, in order. */
  function Dedup(s: seq<Id>): (d: seq<Id>)
    ensures forall y :: y in d <==> y in s
    ensures Distinct(d)
  {
    if |s| == 0 then []
    else
      var d, x := Dedup(s[..|s| - 1]), s[|s| - 1];
      assert s == s[..|s| - 1] + [x];
      if x in d then d else d + [x]
  }
}

/**
 * The settlement tables of one tenant, and what each operation does to them. Every operation
 * is one transaction: it commits its whole effect or returns the tables unchanged.
 */
module Settlement {
  import opened Basics
  import opened ReceivableStates
  import opened Decisions
  import opened Fifo
  import opened Identifiers

  /** `numeric(19,4)` holds less than 10^15 units, that is 10^19 ten-thousandths. */
  const NUMERIC_LIMIT: int := 10_000_000_000_000_000_000

  predicate FitsNumeric(v: int) { -NUMERIC_LIMIT < v < NUMERIC_LIMIT }

  datatype Receivable = Receivable(payer: Id, store: Id, balance: int, state: ReceivableState, version: nat)

  datatype ClaimStatus = Submitted | Acknowledged | Reconciled

  datatype Claim = Claim(payer: Id, store: Id, status: ClaimStatus, version: nat)

  datatype Link = Link(claim: Id, receivable: Id)

  datatype Payment = Payment(receivable: Id, amount: int)

  datatype Remittance = Remittance(claim: Id, amount: int)

  datatype Reconciliation = Reconciliation(claim: Id, claimed: int, remitted: int, variance: int, outcome: Outcome)

  /** payers and sales are written elsewhere: payer -> optional store scope, sale -> store. */
  datatype Db = Db(
    payers: map<Id, Option<Id>>,
    sales: map<Id, Id>,
    receivables: map<Id, Receivable>,
    claims: map<Id, Claim>,
    links: seq<Link>,
    payments: seq<Payment>,
    remittances: seq<Remittance>,
    results: seq<Reconciliation>)

  /** `Failed` is a thrown error: the transaction rolls back. */
  datatype Kind = Ok | NotFound | Conflict | Failed

  datatype Owed = Owed(payer: Id, amount: int)

  // ---- opening receivables ------------------------------------------------------

  predicate PayerInScope(db: Db, payer: Id, store: Id) {
    payer in db.payers && (db.payers[payer].None? || db.payers[payer].value == store)
  }

  /** The CHECK and the column width a new balance must pass. */
  predicate Storable(v: int) { 0 <= v < NUMERIC_LIMIT }

  function NewReceivable(o: Owed, store: Id): Receivable {
    Receivable(o.payer, store, o.amount, INITIAL, 0)
  }

  datatype Inserted = Inserted(kind: Kind, rows: map<Id, Receivable>)

  /** The INSERTs in order: a failed CHECK or key throws, an unknown sale is a conflict. */
  function InsertRows(rs: map<Id, Receivable>, saleKnown: bool, store: Id, owed: seq<Owed>, ids: seq<Id>): Inserted
    requires |owed| == |ids|
    decreases |owed|
  {
    if |owed| == 0 then Inserted(Ok, rs)
    else if !Storable(owed[0].amount) || ids[0] in rs then Inserted(Failed, rs)
    else if !saleKnown then Inserted(Conflict, rs)
    else InsertRows(rs[ids[0] := NewReceivable(owed[0], store)], saleKnown, store, owed[1..], ids[1..])
  }

  predicate SaleKnown(db: Db, sale: Id, store: Id) { sale in db.sales && db.sales[sale] == store }

  function OpenKind(db: Db, store: Id, sale: Id, owed: seq<Owed>, ids: seq<Id>): Kind
    requires |owed| == |ids|
  {
    if exists i :: 0 <= i < |owed| && !PayerInScope(db, owed[i].payer, store) then Conflict
    else InsertRows(db.receivables, SaleKnown(db, sale, store), store, owed, ids).kind
  }

  function OpenFromIntent(db: Db, store: Id, sale: Id, owed: seq<Owed>, ids: seq<Id>): Db
    requires |owed| == |ids|
  {
    if OpenKind(db, store, sale, owed, ids) == Ok
    then db.(receivables := InsertRows(db.receivables, SaleKnown(db, sale, store), store, owed, ids).rows)
    else db
  }

  // ---- applying a payment --------------------------------------------------------

  function PayKind(db: Db, r: Id, amount: Option<int>, version: int): Kind {
    if r !in db.receivables then NotFound
    else
      var row := db.receivables[r];
      if row.version != version || row.state == Settled || row.state == Flagged then Conflict
      else if amount.None? then Failed
      else if amount.value > row.balance then Conflict
      else if amount.value <= 0 then Failed
      else Ok
  }

  function Paid(row: Receivable, amount: int): Receivable {
    row.(balance := row.balance - amount,
         state := if row.balance == amount then Settled else PartiallyApplied,
         version := row.version + 1)
  }

  function ApplyPayment(db: Db, r: Id, amount: Option<int>, version: int): Db {
    if PayKind(db, r, amount, version) == Ok
    then db.(receivables := db.receivables[r := Paid(db.receivables[r], amount.value)],
             payments := db.payments + [Payment(r, amount.value)])
    else db
  }

  // ---- submitting a claim ----------------------------------------------------------

  predicate Claimable(s: ReceivableState) { s == Open || s == PartiallyApplied }

  function SubmitKind(db: Db, payer: Id, refs: seq<Id>, claim: Id): Kind {
    if payer !in db.payers then NotFound
    else if |refs| == 0 then Conflict
    else if exists r :: r in refs && r !in db.receivables then Conflict
    else if exists r :: r in refs && !Claimable(db.receivables[r].state) then Conflict
    else if exists r :: r in refs && db.receivables[r].payer != payer then Conflict
    else if exists r :: r in refs && db.receivables[r].store != db.receivables[refs[0]].store then Conflict
    else if claim in db.claims then Failed
    else Ok
  }

  function LinkAll(claim: Id, refs: seq<Id>): (ls: seq<Link>)
    ensures |ls| == |refs|
    ensures forall i :: 0 <= i < |refs| ==> ls[i] == Link(claim, refs[i])
  {
    seq(|refs|, i requires 0 <= i < |refs| => Link(claim, refs[i]))
  }

  function MarkClaimed(rs: map<Id, Receivable>, refs: seq<Id>): map<Id, Receivable> {
    map r | r in rs :: if r in refs then rs[r].(state := Claimed, version := rs[r].version + 1) else rs[r]
  }

  function SubmitClaim(db: Db, payer: Id, refs: seq<Id>, claim: Id): Db {
    if SubmitKind(db, payer, refs, claim) == Ok
    then db.(claims := db.claims[claim := Claim(payer, db.receivables[refs[0]].store, Submitted, 0)],
             links := db.links + LinkAll(claim, Dedup(refs)),
             receivables := MarkClaimed(db.receivables, refs))
    else db
  }

  // ---- reconciling a remittance ------------------------------------------------------

  function LinkedTo(links: seq<Link>, claim: Id): seq<Id> {
    if |links| == 0 then []
    else
      var l, rest := links[|links| - 1], LinkedTo(links[..|links| - 1], claim);
      if l.claim == claim then rest + [l.receivable] else rest
  }

  lemma {:induction false} LinkedToMembers(links: seq<Link>, claim: Id)
    ensures forall r :: r in LinkedTo(links, claim) <==> Link(claim, r) in links
  {
    if |links| > 0 {
      LinkedToMembers(links[..|links| - 1], claim);
      assert links == links[..|links| - 1] + [links[|links| - 1]];
    }
  }

  /** The claim's lines `JOIN receivable … ORDER BY r.id`. */
  function Lines(db: Db, claim: Id): seq<Id> {
    SortIds(Existing(db.receivables, LinkedTo(db.links, claim)))
  }

  function Existing(rs: map<Id, Receivable>, ids: seq<Id>): seq<Id> {
    if |ids| == 0 then []
    else
      var rest := Existing(rs, ids[..|ids| - 1]);
      if ids[|ids| - 1] in rs then rest + [ids[|ids| - 1]] else rest
  }

  lemma {:induction false} ExistingMembers(rs: map<Id, Receivable>, ids: seq<Id>)
    ensures forall r :: r in Existing(rs, ids) <==> r in ids && r in rs
  {
    if |ids| > 0 {
      ExistingMembers(rs, ids[..|ids| - 1]);
      assert ids == ids[..|ids| - 1] + [ids[|ids| - 1]];
    }
  }

  lemma LinesMembers(db: Db, claim: Id)
    ensures Distinct(Lines(db, claim))
    ensures forall r :: r in Lines(db, claim) <==> Link(claim, r) in db.links && r in db.receivables
  {
    LinkedToMembers(db.links, claim);
    ExistingMembers(db.receivables, LinkedTo(db.links, claim));
    SortIdsSorts(Existing(db.receivables, LinkedTo(db.links, claim)));
  }

  function Balances(rs: map<Id, Receivable>, ids: seq<Id>): (bs: seq<int>)
    requires forall i :: 0 <= i < |ids| ==> ids[i] in rs
    ensures |bs| == |ids|
    ensures forall i :: 0 <= i < |ids| ==> bs[i] == rs[ids[i]].balance
  {
    seq(|ids|, i requires 0 <= i < |ids| => rs[ids[i]].balance)
  }

  /** The claim total as computed from the locked lines. */
  function ClaimTotal(db: Db, claim: Id): int {
    LinesMembers(db, claim);
    Sum(Balances(db.receivables, Lines(db, claim)))
  }

  function ReconcileKind(db: Db, claim: Id, remitted: Option<int>): Kind {
    if claim !in db.claims then NotFound
    else if db.claims[claim].status == Reconciled then Conflict
    else if |Lines(db, claim)| == 0 then Conflict
    else if exists r :: r in Lines(db, claim) && r in db.receivables && db.receivables[r].state != Claimed then Conflict
    else if remitted.None? || !Storable(remitted.value) || !FitsNumeric(ClaimTotal(db, claim)) then Failed
    else Ok
  }

  /** One line after reconciliation; a partly remitted claim leaves uncovered lines untouched. */
  function Absorb(row: Receivable, share: int, outcome: Outcome): Receivable {
    match outcome
    case OutPartial =>
      if share == 0 then row else row.(balance := row.balance - share, version := row.version + 1)
    case OutSettled => row.(balance := row.balance - share, state := Settled, version := row.version + 1)
    case OutFlagged => row.(balance := row.balance - share, state := Flagged, version := row.version + 1)
  }

  function AbsorbAll(rs: map<Id, Receivable>, ids: seq<Id>, shares: seq<int>, outcome: Outcome): map<Id, Receivable>
    requires |ids| == |shares|
  {
    if |ids| == 0 then rs
    else
      var n := |ids| - 1;
      var before := AbsorbAll(rs, ids[..n], shares[..n], outcome);
      if ids[n] in before then before[ids[n] := Absorb(before[ids[n]], shares[n], outcome)] else before
  }

  function LineShares(db: Db, claim: Id, remitted: int): (s: seq<int>)
    ensures |s| == |Lines(db, claim)|
  {
    LinesMembers(db, claim);
    Shares(Balances(db.receivables, Lines(db, claim)), remitted)
  }

  /** Every line absorbs its first-in-first-out share, whatever the outcome. */
  function Reconcile(db: Db, claim: Id, remitted: Option<int>): Db {
    if ReconcileKind(db, claim, remitted) == Ok then
      var total, r := ClaimTotal(db, claim), remitted.value;
      var outcome, c := OutcomeOf(total, r), db.claims[claim];
      db.(remittances := db.remittances + [Remittance(claim, r)],
          results := db.results + [Reconciliation(claim, total, r, total - r, outcome)],
          receivables := AbsorbAll(db.receivables, Lines(db, claim), LineShares(db, claim, r), outcome),
          claims := db.claims[claim := c.(status := Reconciled, version := c.version + 1)])
    else db
  }

  /** Lines past an exhausted remittance keep their rows. */
  lemma {:induction false} NothingLeft(rs: map<Id, Receivable>, ids: seq<Id>, shares: seq<int>, i: nat)
    requires |ids| == |shares| && i <= |ids|
    requires forall j :: i <= j < |ids| ==> shares[j] == 0
    ensures AbsorbAll(rs, ids, shares, OutPartial) == AbsorbAll(rs, ids[..i], shares[..i], OutPartial)
  {
    var n := |ids| - 1;
    if i == |ids| {
      assert ids[..i] == ids && shares[..i] == shares;
    } else {
      NothingLeft(rs, ids[..n], shares[..n], i);
      assert ids[..n][..i] == ids[..i] && shares[..n][..i] == shares[..i];
      var before := AbsorbAll(rs, ids[..n], shares[..n], OutPartial);
      if ids[n] in before { assert before[ids[n] := before[ids[n]]] == before; }
    }
  }

  /** Rows outside the absorbing lines, and the domain, are unchanged. */
  lemma {:induction false} AbsorbAllFrame(rs: map<Id, Receivable>, ids: seq<Id>, shares: seq<int>, outcome: Outcome)
    requires |ids| == |shares|
    ensures AbsorbAll(rs, ids, shares, outcome).Keys == rs.Keys
    ensures forall r :: r in rs && r !in ids ==> AbsorbAll(rs, ids, shares, outcome)[r] == rs[r]
  {
    if |ids| > 0 {
      var n := |ids| - 1;
      AbsorbAllFrame(rs, ids[..n], shares[..n], outcome);
      assert ids == ids[..n] + [ids[n]];
    }
  }

  /** With distinct lines each one absorbs exactly its own share. */
  lemma {:induction false} AbsorbAllAt(rs: map<Id, Receivable>, ids: seq<Id>, shares: seq<int>, outcome: Outcome,
                                       i: nat)
    requires |ids| == |shares| && i < |ids| && Distinct(ids)
    requires ids[i] in rs
    ensures ids[i] in AbsorbAll(rs, ids, shares, outcome)
    ensures AbsorbAll(rs, ids, shares, outcome)[ids[i]] == Absorb(rs[ids[i]], shares[i], outcome)
  {
    var n := |ids| - 1;
    AbsorbAllFrame(rs, ids[..n], shares[..n], outcome);
    if i < n {
      AbsorbAllAt(rs, ids[..n], shares[..n], outcome, i);
    } else {
      assert forall j :: 0 <= j < n ==> ids[..n][j] != ids[n];
    }
  }

  /** Absorbing one more line touches that line's original row only. */
  lemma AbsorbNext(rs: map<Id, Receivable>, ids: seq<Id>, shares: seq<int>, outcome: Outcome, i: nat)
    requires |ids| == |shares| && i < |ids| && Distinct(ids) && ids[i] in rs
    ensures var before := AbsorbAll(rs, ids[..i], shares[..i], outcome);
            && ids[i] in before && before[ids[i]] == rs[ids[i]]
            && AbsorbAll(rs, ids[..i + 1], shares[..i + 1], outcome)
               == before[ids[i] := Absorb(rs[ids[i]], shares[i], outcome)]
  {
    AbsorbAllFrame(rs, ids[..i], shares[..i], outcome);
    assert ids[..i + 1][..i] == ids[..i] && shares[..i + 1][..i] == shares[..i];
    assert ids[i] !in ids[..i];
  }

  /** A remittance of at least the claim total covers every line in full. */
  lemma FullyCovered(bs: seq<int>, remitted: int)
    requires NonNegative(bs) && Sum(bs) <= remitted
    ensures Shares(bs, remitted) == bs
  {
    SumNonNegative(bs);
    PrefixCleared(bs, remitted);
  }

  lemma AbsorbKeepsStorable(rs: map<Id, Receivable>, ids: seq<Id>, bs: seq<int>, remitted: int, outcome: Outcome)
    requires |ids| == |bs| && Distinct(ids) && remitted >= 0
    requires forall i :: 0 <= i < |ids| ==> ids[i] in rs && rs[ids[i]].balance == bs[i]
    requires forall r :: r in rs ==> Storable(rs[r].balance)
    ensures var after := AbsorbAll(rs, ids, Shares(bs, remitted), outcome);
            after.Keys == rs.Keys && forall r :: r in after ==> Storable(after[r].balance)
  {
    var shares := Shares(bs, remitted);
    var after := AbsorbAll(rs, ids, shares, outcome);
    AbsorbAllFrame(rs, ids, shares, outcome);
    forall r | r in after ensures Storable(after[r].balance) {
      if r in ids {
        var i :| 0 <= i < |ids| && ids[i] == r;
        AbsorbAllAt(rs, ids, shares, outcome, i);
      }
    }
  }
}
