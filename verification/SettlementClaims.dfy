/**
 * Receivables in more than one claim: which runs put them there. A payment may be applied to
 * a claimed receivable, and a partial one makes it claimable again.
 */
module SettlementClaims {
  import opened Basics
  import opened ReceivableStates
  import opened Identifiers
  import opened Settlement
  import opened SettlementRuns

  /** The tables after the first `n` actions. */
  function At(w: World, acts: seq<Action>, n: nat): Db
    requires AllWellFormed(acts) && n <= |acts|
  {
    Run(w, acts[..n]).db
  }

  /** Some receivable is linked to two different claims. */
  ghost predicate InTwoClaims(db: Db) {
    exists r, c, d :: TwoClaims(db, r, c, d)
  }

  predicate TwoClaims(db: Db, r: Id, c: Id, d: Id) { c != d && Link(c, r) in db.links && Link(d, r) in db.links }

  predicate OpenClaim(db: Db, c: Id) { c in db.claims && db.claims[c].status != Reconciled }

  /** Some receivable is linked to two claims that still await their remittance. */
  ghost predicate InTwoOpenClaims(db: Db) {
    exists r, c, d :: TwoClaims(db, r, c, d) && OpenClaim(db, c) && OpenClaim(db, d)
  }

  /** An accepted payment that leaves part of claimed receivable `r`'s debt open. */
  predicate Reopens(db: Db, a: Action, r: Id) {
    && a.Pay? && a.receivable == r && PayKind(db, r, a.amount, a.version) == Ok
    && db.receivables[r].state == Claimed
    && a.amount.value < db.receivables[r].balance
  }

  /** An accepted claim that names `r`. */
  predicate Submits(db: Db, a: Action, r: Id) {
    a.Submit? && SubmitKind(db, a.payer, a.refs, a.claim) == Ok && r in a.refs
  }

  /** An accepted reconciliation of claim `c`. */
  predicate Reconciles(db: Db, a: Action, c: Id) {
    a.Remit? && a.claim == c && ReconcileKind(db, c, a.remitted) == Ok
  }

  /** `r` is reopened at `i` and claimed again at `j`. */
  predicate Reclaimed(w: World, acts: seq<Action>, i: nat, j: nat, r: Id)
    requires AllWellFormed(acts)
  {
    i < j < |acts| && Reopens(At(w, acts, i), acts[i], r) && Submits(At(w, acts, j), acts[j], r)
  }

  /** ... and its claim `c` from before `i` has not been reconciled by `j`. */
  ghost predicate ReclaimedOpen(w: World, acts: seq<Action>, i: nat, j: nat, r: Id, c: Id)
    requires AllWellFormed(acts)
  {
    && Reclaimed(w, acts, i, j, r)
    && Link(c, r) in At(w, acts, i).links
    && forall k: nat :: k < j ==> !Reconciles(At(w, acts, k), acts[k], c)
  }

  // ---- single steps -----------------------------------------------------------------------------

  lemma BecomesClaimable(db: Db, a: Action, r: Id)
    requires Wf(db) && WellFormed(a) && r in db.receivables && r in Do(db, a).receivables
    requires !Claimable(db.receivables[r].state) && Claimable(Do(db, a).receivables[r].state)
    ensures Reopens(db, a, r)
  {
    hide AbsorbAll, Lines, ClaimTotal, InsertRows, Dedup, GoodClaims, GoodResults;
    match a
    case Intent(store, sale, owed, ids) =>
      if OpenKind(db, store, sale, owed, ids) == Ok {
        InsertRowsAt(db.receivables, SaleKnown(db, sale, store), store, owed, ids);
      }
    case Remit(claim, remitted) =>
      if ReconcileKind(db, claim, remitted) == Ok { RemitRows(db, claim, remitted.value); }
    case _ =>
  }

  /** Links only come from accepted claims, which leave their receivables claimed. */
  lemma NewLink(db: Db, a: Action, l: Link)
    requires WellFormed(a) && l in Do(db, a).links && l !in db.links
    ensures Submits(db, a, l.receivable) && l.claim == a.claim
    ensures l.receivable in Do(db, a).receivables && Do(db, a).receivables[l.receivable].state == Claimed
  {
    hide Lines, InsertRows, Dedup, LinkAll;
    match a
    case Submit(payer, refs, claim) =>
      if SubmitKind(db, payer, refs, claim) == Ok { SubmitLinks(db, payer, refs, claim); }
    case _ =>
  }

  lemma SubmitAdds(db: Db, a: Action, r: Id)
    requires WellFormed(a) && Submits(db, a, r)
    ensures Link(a.claim, r) in Do(db, a).links && OpenClaim(Do(db, a), a.claim)
    ensures a.claim !in db.claims && r in db.receivables && Claimable(db.receivables[r].state)
  {
    hide Dedup, LinkAll;
    SubmitLinks(db, a.payer, a.refs, a.claim);
  }

  /** Links and claims stay; a claim is reconciled exactly by an accepted reconciliation of it. */
  lemma TablesGrow(db: Db, a: Action)
    requires WellFormed(a)
    ensures forall l :: l in db.links ==> l in Do(db, a).links
    ensures forall c :: c in db.claims ==>
      c in Do(db, a).claims && (OpenClaim(Do(db, a), c) <==> OpenClaim(db, c) && !Reconciles(db, a, c))
    ensures forall c :: c in Do(db, a).claims && c !in db.claims ==> OpenClaim(Do(db, a), c)
  {
    hide Lines, InsertRows, Dedup, LinkAll, AbsorbAll, ClaimTotal;
  }

  // ---- runs -----------------------------------------------------------------------------------------

  lemma NextTables(w: World, acts: seq<Action>, n: nat)
    requires AllWellFormed(acts) && n < |acts|
    ensures At(w, acts, n + 1) == Do(At(w, acts, n), acts[n])
  {
    assert acts[..n + 1][..n] == acts[..n] && acts[..n + 1][n] == acts[n];
  }

  lemma {:induction false} LinksStay(w: World, acts: seq<Action>, i: nat, n: nat, l: Link)
    requires AllWellFormed(acts) && i <= n <= |acts| && l in At(w, acts, i).links
    ensures l in At(w, acts, n).links
  {
    hide At, Do;
    if i < n {
      LinksStay(w, acts, i, n - 1, l);
      NextTables(w, acts, n - 1);
      TablesGrow(At(w, acts, n - 1), acts[n - 1]);
    }
  }

  /** A claim is open exactly until its accepted reconciliation. */
  lemma {:induction false} OpenUntil(w: World, acts: seq<Action>, n: nat, c: Id)
    requires AllWellFormed(acts) && n <= |acts| && c in At(w, acts, n).claims && w.db.claims == map[]
    ensures OpenClaim(At(w, acts, n), c) <==> forall k: nat :: k < n ==> !Reconciles(At(w, acts, k), acts[k], c)
  {
    hide Do, Reconciles, OpenClaim, At;
    if n == 0 {
      NoLinksYet(w, acts);
    } else {
      NextTables(w, acts, n - 1);
      TablesGrow(At(w, acts, n - 1), acts[n - 1]);
      if c in At(w, acts, n - 1).claims {
        OpenUntil(w, acts, n - 1, c);
      } else {
        NotYet(w, acts, n - 1, c);
        NeverReconciled(At(w, acts, n - 1), acts[n - 1], c);
      }
    }
  }

  lemma NeverReconciled(db: Db, a: Action, c: Id)
    requires c !in db.claims
    ensures !Reconciles(db, a, c)
  {}

  /** A claim that does not exist at `n` has not been reconciled before. */
  lemma {:induction false} NotYet(w: World, acts: seq<Action>, n: nat, c: Id)
    requires AllWellFormed(acts) && n <= |acts| && c !in At(w, acts, n).claims
    ensures forall k: nat :: k <= n ==> c !in At(w, acts, k).claims
    ensures forall k: nat :: k < n ==> !Reconciles(At(w, acts, k), acts[k], c)
  {
    hide Do, Reconciles, At;
    if n > 0 {
      NextTables(w, acts, n - 1);
      TablesGrow(At(w, acts, n - 1), acts[n - 1]);
      NotYet(w, acts, n - 1, c);
      NeverReconciled(At(w, acts, n - 1), acts[n - 1], c);
    }
  }

  /** A linked receivable that can be claimed was reopened earlier, while that link stood. */
  lemma {:induction false} ReopenedFirst(payers: map<Id, Option<Id>>, sales: map<Id, Id>, acts: seq<Action>, n: nat,
                                         c: Id, r: Id)
    returns (i: nat)
    requires AllWellFormed(acts) && n <= |acts|
    requires var db := At(Start(payers, sales), acts, n);
             Link(c, r) in db.links && r in db.receivables && Claimable(db.receivables[r].state)
    ensures i < n && Reopens(At(Start(payers, sales), acts, i), acts[i], r)
    ensures Link(c, r) in At(Start(payers, sales), acts, i).links
  {
    hide At, Do, Wf, Reopens, Claimable;
    var w := Start(payers, sales);
    if n == 0 {
      NoLinksYet(w, acts);
    } else {
      var before, a := At(w, acts, n - 1), acts[n - 1];
      NextTables(w, acts, n - 1);
      Reachable(payers, sales, acts, n - 1);
      if Link(c, r) in before.links {
        LinkedExists(before, c, r);
        if Claimable(before.receivables[r].state) {
          i := ReopenedFirst(payers, sales, acts, n - 1, c, r);
        } else {
          BecomesClaimable(before, a, r);
          i := n - 1;
        }
      } else {
        NewLink(before, a, Link(c, r));
        ClaimedIsTaken();
      }
    }
  }

  lemma ClaimedIsTaken()
    ensures !Claimable(Claimed)
  {}

  lemma NoLinksYet(w: World, acts: seq<Action>)
    requires AllWellFormed(acts)
    ensures At(w, acts, 0) == w.db
  {
    assert acts[..0] == [];
  }

  lemma LinkedExists(db: Db, c: Id, r: Id)
    requires Wf(db) && Link(c, r) in db.links
    ensures r in db.receivables && c in db.claims
  {}

  lemma Reachable(payers: map<Id, Option<Id>>, sales: map<Id, Id>, acts: seq<Action>, n: nat)
    requires AllWellFormed(acts) && n <= |acts|
    ensures Wf(At(Start(payers, sales), acts, n))
  {
    RunKeeps(payers, sales, acts[..n]);
  }

  /** The step into two claims is a claim that names an already linked receivable. */
  lemma SecondLink(db: Db, a: Action, r: Id, c: Id, d: Id)
    requires WellFormed(a) && TwoClaims(Do(db, a), r, c, d) && !TwoClaims(db, r, c, d)
    ensures Submits(db, a, r) && a.Submit?
    ensures || (c == a.claim && Link(d, r) in db.links)
            || (d == a.claim && Link(c, r) in db.links)
  {
    hide Do;
    if Link(c, r) !in db.links { NewLink(db, a, Link(c, r)); }
    if Link(d, r) !in db.links { NewLink(db, a, Link(d, r)); }
  }

  lemma {:induction false} TwoClaimsWere(payers: map<Id, Option<Id>>, sales: map<Id, Id>, acts: seq<Action>, n: nat,
                                         r: Id, c: Id, d: Id)
    returns (i: nat, j: nat)
    requires AllWellFormed(acts) && n <= |acts| && TwoClaims(At(Start(payers, sales), acts, n), r, c, d)
    ensures j < n && Reclaimed(Start(payers, sales), acts, i, j, r)
  {
    hide At, Do, Reopens, Submits, Claimable;
    var w := Start(payers, sales);
    if n == 0 {
      NoLinksYet(w, acts);
    } else {
      NextTables(w, acts, n - 1);
      var before := At(w, acts, n - 1);
      if TwoClaims(before, r, c, d) {
        i, j := TwoClaimsWere(payers, sales, acts, n - 1, r, c, d);
      } else {
        SecondLink(before, acts[n - 1], r, c, d);
        SubmitAdds(before, acts[n - 1], r);
        i := ReopenedFirst(payers, sales, acts, n - 1, if c == acts[n - 1].claim then d else c, r);
        j := n - 1;
      }
    }
  }

  /** A reclaimed receivable is in two claims from then on: the one it was claimed in, and the new one. */
  lemma ReclaimedIsInTwo(payers: map<Id, Option<Id>>, sales: map<Id, Id>, acts: seq<Action>, i: nat, j: nat,
                         r: Id, c: Id)
    requires AllWellFormed(acts) && Reclaimed(Start(payers, sales), acts, i, j, r)
    requires Link(c, r) in At(Start(payers, sales), acts, i).links
    ensures acts[j].Submit? && c in At(Start(payers, sales), acts, j).claims
    ensures TwoClaims(At(Start(payers, sales), acts, j + 1), r, c, acts[j].claim)
    ensures OpenClaim(At(Start(payers, sales), acts, j + 1), acts[j].claim)
  {
    hide At, Do, Reopens, Wf, OpenClaim;
    var w := Start(payers, sales);
    LinksStay(w, acts, i, j, Link(c, r));
    LinksStay(w, acts, i, j + 1, Link(c, r));
    Reachable(payers, sales, acts, j);
    LinkedExists(At(w, acts, j), c, r);
    NextTables(w, acts, j);
    SubmitAdds(At(w, acts, j), acts[j], r);
  }

  lemma ClaimOfReopened(db: Db, a: Action, r: Id) returns (c: Id)
    requires Wf(db) && Reopens(db, a, r)
    ensures Link(c, r) in db.links
  {
    c :| Link(c, r) in db.links;
  }

  /**
   * A run ever puts a receivable in two claims exactly when an accepted payment leaves a
   * claimed receivable partly open and a later accepted claim names it.
   */
  lemma TwoClaimsIff(payers: map<Id, Option<Id>>, sales: map<Id, Id>, acts: seq<Action>)
    requires AllWellFormed(acts)
    ensures (exists n: nat :: n <= |acts| && InTwoClaims(At(Start(payers, sales), acts, n))) <==>
            (exists i: nat, j: nat, r: Id :: Reclaimed(Start(payers, sales), acts, i, j, r))
  {
    hide At, Reclaimed, Reopens, TwoClaims;
    var w := Start(payers, sales);
    if n: nat :| n <= |acts| && InTwoClaims(At(w, acts, n)) {
      var r, c, d :| TwoClaims(At(w, acts, n), r, c, d);
      var i, j := TwoClaimsWere(payers, sales, acts, n, r, c, d);
    }
    if i: nat, j: nat, r: Id :| Reclaimed(w, acts, i, j, r) {
      ReclaimedParts(w, acts, i, j, r);
      Reachable(payers, sales, acts, i);
      var c := ClaimOfReopened(At(w, acts, i), acts[i], r);
      ReclaimedIsInTwo(payers, sales, acts, i, j, r, c);
      assert InTwoClaims(At(w, acts, j + 1));
    }
  }

  lemma ReclaimedParts(w: World, acts: seq<Action>, i: nat, j: nat, r: Id)
    requires AllWellFormed(acts) && Reclaimed(w, acts, i, j, r)
    ensures i < j < |acts| && Reopens(At(w, acts, i), acts[i], r) && Submits(At(w, acts, j), acts[j], r)
  {}

  lemma {:induction false} TwoOpenClaimsWere(payers: map<Id, Option<Id>>, sales: map<Id, Id>, acts: seq<Action>, n: nat,
                                             r: Id, c: Id, d: Id)
    returns (i: nat, j: nat, e: Id)
    requires AllWellFormed(acts) && n <= |acts| && TwoClaims(At(Start(payers, sales), acts, n), r, c, d)
    requires OpenClaim(At(Start(payers, sales), acts, n), c) && OpenClaim(At(Start(payers, sales), acts, n), d)
    ensures j < n && ReclaimedOpen(Start(payers, sales), acts, i, j, r, e)
  {
    hide At, Do, Reopens, Submits, Claimable, Wf, Reconciles;
    var w := Start(payers, sales);
    if n == 0 {
      NoLinksYet(w, acts);
    } else {
      NextTables(w, acts, n - 1);
      Reachable(payers, sales, acts, n - 1);
      var before, a := At(w, acts, n - 1), acts[n - 1];
      TablesGrow(before, a);
      if TwoClaims(before, r, c, d) {
        LinkedExists(before, c, r);
        LinkedExists(before, d, r);
        i, j, e := TwoOpenClaimsWere(payers, sales, acts, n - 1, r, c, d);
      } else {
        SecondLink(before, a, r, c, d);
        SubmitAdds(before, a, r);
        e := if c == a.claim then d else c;
        LinkedExists(before, e, r);
        i := ReopenedFirst(payers, sales, acts, n - 1, e, r);
        j := n - 1;
        OpenUntil(w, acts, n - 1, e);
      }
    }
  }

  /**
   * A run ever puts a receivable in two claims that both await their remittance exactly when
   * it is reopened, and claimed again before its earlier claim is reconciled; reopening after
   * that is harmless.
   */
  lemma TwoOpenClaimsIff(payers: map<Id, Option<Id>>, sales: map<Id, Id>, acts: seq<Action>)
    requires AllWellFormed(acts)
    ensures (exists n: nat :: n <= |acts| && InTwoOpenClaims(At(Start(payers, sales), acts, n))) <==>
            (exists i: nat, j: nat, r: Id, c: Id :: ReclaimedOpen(Start(payers, sales), acts, i, j, r, c))
  {
    hide At, Reclaimed, Reopens, TwoClaims, OpenClaim, Reconciles, Do;
    var w := Start(payers, sales);
    if n: nat :| n <= |acts| && InTwoOpenClaims(At(w, acts, n)) {
      var r, c, d :| TwoClaims(At(w, acts, n), r, c, d) && OpenClaim(At(w, acts, n), c) && OpenClaim(At(w, acts, n), d);
      var i, j, e := TwoOpenClaimsWere(payers, sales, acts, n, r, c, d);
    }
    if i: nat, j: nat, r: Id, c: Id :| ReclaimedOpen(w, acts, i, j, r, c) {
      ReclaimedParts(w, acts, i, j, r);
      ReclaimedIsInTwo(payers, sales, acts, i, j, r, c);
      OpenUntil(w, acts, j, c);
      NextTables(w, acts, j);
      TablesGrow(At(w, acts, j), acts[j]);
      SubmitIsNoRemit(At(w, acts, j), acts[j], c);
      assert InTwoOpenClaims(At(w, acts, j + 1));
    }
  }

  lemma SubmitIsNoRemit(db: Db, a: Action, c: Id)
    requires a.Submit?
    ensures !Reconciles(db, a, c)
  {}

  // ---- which open claims can still be reconciled -----------------------------------------------------

  /** Some continuation has a remittance for `c` accepted. */
  ghost predicate CanBeReconciled(w: World, c: Id) {
    exists acts: seq<Action>, remitted: Option<int> ::
      AllWellFormed(acts) && ReconcileKind(Run(w, acts).db, c, remitted) == Ok
  }

  /** Some receivable of the claim was settled or flagged through another claim or a payment. */
  ghost predicate HasTerminalLine(db: Db, c: Id) {
    exists r :: Link(c, r) in db.links && r in db.receivables && IsTerminal(db.receivables[r].state)
  }

  /** A terminal line stays where it is, and every remittance for its claim is refused. */
  lemma TerminalLineBlocks(w: World, c: Id, acts: seq<Action>, remitted: Option<int>)
    requires Inv(w) && AllWellFormed(acts) && HasTerminalLine(w.db, c)
    ensures ReconcileKind(Run(w, acts).db, c, remitted) != Ok
  {
    hide Inv, Lines, ClaimTotal;
    var r :| Link(c, r) in w.db.links && r in w.db.receivables && IsTerminal(w.db.receivables[r].state);
    TerminalForever(w, acts, r);
    NoLinksYet(w, acts);
    LinksStay(w, acts, 0, |acts|, Link(c, r));
    assert acts[..|acts|] == acts;
    LinesMembers(Run(w, acts).db, c);
    assert r in Lines(Run(w, acts).db, c);
  }

  /** The claim's receivables that a payment has reopened. */
  function Reopened(rs: map<Id, Receivable>, ids: seq<Id>): (open: seq<Id>)
    ensures forall r :: r in open <==> r in ids && r in rs && Claimable(rs[r].state)
  {
    if |ids| == 0 then []
    else
      var n := |ids| - 1;
      var open := Reopened(rs, ids[..n]);
      assert ids == ids[..n] + [ids[n]];
      if ids[n] in rs && Claimable(rs[ids[n]].state) then open + [ids[n]] else open
  }

  /** All lines claimed: a remittance of nothing is accepted. */
  lemma AllClaimedReconciles(db: Db, c: Id)
    requires GoodClaims(db) && OpenClaim(db, c) && FitsNumeric(ClaimTotal(db, c))
    requires forall r :: r in Lines(db, c) && r in db.receivables ==> db.receivables[r].state == Claimed
    ensures ReconcileKind(db, c, Some(0)) == Ok
  {
    hide Lines, ClaimTotal;
    LinesMembers(db, c);
    var r :| Link(c, r) in db.links;
    assert r in Lines(db, c);
  }

  /** The reopened lines of a claim make a claim of their own. */
  lemma ReclaimAccepted(db: Db, c: Id, claim: Id)
    requires Wf(db) && OpenClaim(db, c) && claim !in db.claims && Reopened(db.receivables, Lines(db, c)) != []
    ensures SubmitKind(db, db.claims[c].payer, Reopened(db.receivables, Lines(db, c)), claim) == Ok
  {
    hide Lines, GoodResults;
    LinesMembers(db, c);
    var open := Reopened(db.receivables, Lines(db, c));
    assert open[0] in open;
    forall r | r in open
      ensures db.receivables[r].payer == db.claims[c].payer && db.receivables[r].store == db.claims[c].store
    {
      assert Link(c, r) in db.links;
    }
  }

  lemma {:induction false} OtherLinks(links: seq<Link>, added: seq<Link>, c: Id)
    requires forall i :: 0 <= i < |added| ==> added[i].claim != c
    ensures LinkedTo(links + added, c) == LinkedTo(links, c)
  {
    if |added| == 0 {
      assert links + added == links;
    } else {
      assert (links + added)[..|links + added| - 1] == links + added[..|added| - 1];
      OtherLinks(links, added[..|added| - 1], c);
    }
  }

  /** Claiming other lines again changes neither the lines of `c` nor what they owe. */
  lemma ReclaimKeepsLines(db: Db, payer: Id, refs: seq<Id>, claim: Id, c: Id)
    requires SubmitKind(db, payer, refs, claim) == Ok && c != claim
    ensures var after := SubmitClaim(db, payer, refs, claim);
            && Lines(after, c) == Lines(db, c) && ClaimTotal(after, c) == ClaimTotal(db, c)
  {
    hide SortIds, LinkedTo, Existing, Dedup, Sum;
    var after := SubmitClaim(db, payer, refs, claim);
    OtherLinks(db.links, LinkAll(claim, Dedup(refs)), c);
    SameExisting(db.receivables, after.receivables, LinkedTo(db.links, c));
    LinesMembers(db, c);
    LinesMembers(after, c);
    assert Balances(after.receivables, Lines(db, c)) == Balances(db.receivables, Lines(db, c));
  }

  /** With its reopened lines claimed again, every line of the claim is claimed. */
  lemma ReclaimedReconciles(db: Db, c: Id, claim: Id)
    requires Wf(db) && OpenClaim(db, c) && !HasTerminalLine(db, c) && FitsNumeric(ClaimTotal(db, c))
    requires claim !in db.claims && Reopened(db.receivables, Lines(db, c)) != []
    ensures var open := Reopened(db.receivables, Lines(db, c));
            ReconcileKind(SubmitClaim(db, db.claims[c].payer, open, claim), c, Some(0)) == Ok
  {
    hide Lines, ClaimTotal, ReconcileKind, SubmitKind, Wf, Dedup, LinkAll;
    var payer, open := db.claims[c].payer, Reopened(db.receivables, Lines(db, c));
    var after := SubmitClaim(db, payer, open, claim);
    ReclaimAccepted(db, c, claim);
    ReclaimKeepsLines(db, payer, open, claim, c);
    SubmitTables(db, payer, open, claim);
    WfIsGood(after);
    LinesMembers(db, c);
    forall r | r in Lines(after, c) && r in after.receivables ensures after.receivables[r].state == Claimed {
      assert Link(c, r) in db.links && r in db.receivables;
    }
    AllClaimedReconciles(after, c);
  }

  lemma WfIsGood(db: Db)
    requires Wf(db)
    ensures GoodClaims(db)
  {}

  lemma ReclaimThenReconcile(w: World, c: Id)
    requires Inv(w) && OpenClaim(w.db, c) && !HasTerminalLine(w.db, c) && FitsNumeric(ClaimTotal(w.db, c))
    requires Reopened(w.db.receivables, Lines(w.db, c)) != []
    ensures CanBeReconciled(w, c)
  {
    hide Lines, ClaimTotal, ReconcileKind, SubmitClaim, Wf, Conserved, RemittancesBalance, HasTerminalLine, OpenClaim;
    assert c in w.db.claims by { OpenExists(w.db, c); }
    var claim := Unused(w.db.claims.Keys);
    var a := Submit(w.db.claims[c].payer, Reopened(w.db.receivables, Lines(w.db, c)), claim);
    ReclaimedReconciles(w.db, c, claim);
    assert [a][..0] == [];
    assert Run(w, []) == w && Run(w, [a]).db == Do(w.db, a);
    assert AllWellFormed([a]);
  }

  lemma OpenExists(db: Db, c: Id)
    requires OpenClaim(db, c)
    ensures c in db.claims
  {}

  /**
   * A claim awaiting its remittance, whose total the column holds, can still be reconciled
   * exactly when none of its receivables has been settled or flagged in the meantime.
   */
  lemma CanBeReconciledIff(w: World, c: Id)
    requires Inv(w) && OpenClaim(w.db, c) && FitsNumeric(ClaimTotal(w.db, c))
    ensures CanBeReconciled(w, c) <==> !HasTerminalLine(w.db, c)
  {
    hide Lines, ClaimTotal, ReconcileKind, Conserved, RemittancesBalance;
    if HasTerminalLine(w.db, c) {
      forall acts: seq<Action>, remitted: Option<int> | AllWellFormed(acts)
        ensures ReconcileKind(Run(w, acts).db, c, remitted) != Ok
      {
        TerminalLineBlocks(w, c, acts, remitted);
      }
    } else if Reopened(w.db.receivables, Lines(w.db, c)) != [] {
      ReclaimThenReconcile(w, c);
    } else {
      LinesMembers(w.db, c);
      forall r | r in Lines(w.db, c) && r in w.db.receivables ensures w.db.receivables[r].state == Claimed {
        assert r !in Reopened(w.db.receivables, Lines(w.db, c));
      }
      AllClaimedReconciles(w.db, c);
      assert Run(w, []) == w && AllWellFormed([]);
    }
  }

  // ---- a run that does it ------------------------------------------------------------------------------

  /** Open 1.0000, claim it, pay 0.4000 on it, claim it again. */
  const DOUBLE_CLAIM: seq<Action> :=
    [Intent(3, 7, [Owed(1, 10000)], [5]), Submit(1, [5], 11), Pay(5, Some(4000), 1), Submit(1, [5], 12)]

  /** After that run receivable 5 is in claims 11 and 12, both awaiting their remittance. */
  lemma DoubleClaimExample()
    ensures var db := Run(Start(map[1 := None], map[7 := 3]), DOUBLE_CLAIM).db;
            TwoClaims(db, 5, 11, 12) && OpenClaim(db, 11) && OpenClaim(db, 12)
  {
    hide Do, Entries;
    var w0 := Start(map[1 := None], map[7 := 3]);
    var acts := DOUBLE_CLAIM;
    var w1 := Step(w0, acts[0]);
    var w2 := Step(w1, acts[1]);
    var w3 := Step(w2, acts[2]);
    assert Run(w0, acts[..0]) == w0;
    assert acts[..1][..0] == acts[..0] && acts[..2][..1] == acts[..1] && acts[..3][..2] == acts[..2];
    assert Run(w0, acts[..1]) == w1 && Run(w0, acts[..2]) == w2 && Run(w0, acts[..3]) == w3;
    OpenExample(w0.db);
    ClaimExample(w1.db);
    PayExample(w2.db);
    ReclaimExample(w3.db);
  }

  lemma OpenExample(db: Db)
    requires db.payers == map[1 := None] && db.sales == map[7 := 3] && db.receivables == map[]
    ensures Do(db, Intent(3, 7, [Owed(1, 10000)], [5])) ==
      db.(receivables := map[5 := Receivable(1, 3, 10000, Open, 0)])
  {
    hide InsertRows;
    InsertRowsExample(db.receivables);
  }

  lemma ClaimExample(db: Db)
    requires db.payers == map[1 := None] && db.claims == map[]
    requires db.receivables == map[5 := Receivable(1, 3, 10000, Open, 0)]
    ensures var after := Do(db, Submit(1, [5], 11));
            && after.payers == db.payers && OpenClaim(after, 11) && after.claims.Keys == {11}
            && Link(11, 5) in after.links
            && 5 in after.receivables && after.receivables[5] == Receivable(1, 3, 10000, Claimed, 1)
  {
    hide Dedup, LinkAll;
    assert 5 in [5];
    SubmitLinks(db, 1, [5], 11);
  }

  lemma InsertRowsExample(rs: map<Id, Receivable>)
    requires rs == map[]
    ensures InsertRows(rs, true, 3, [Owed(1, 10000)], [5])
         == Inserted(Ok, map[5 := Receivable(1, 3, 10000, Open, 0)])
  {
    var rest := rs[5 := NewReceivable(Owed(1, 10000), 3)];
    assert [Owed(1, 10000)][1..] == [] && [5][1..] == [];
    assert InsertRows(rest, true, 3, [], []) == Inserted(Ok, rest);
    assert rest == map[5 := Receivable(1, 3, 10000, Open, 0)];
  }

  lemma PayExample(db: Db)
    requires 5 in db.receivables && db.receivables[5] == Receivable(1, 3, 10000, Claimed, 1)
    ensures var after := Do(db, Pay(5, Some(4000), 1));
            && after.payers == db.payers && after.claims == db.claims && after.links == db.links
            && 5 in after.receivables && after.receivables[5] == Receivable(1, 3, 6000, PartiallyApplied, 2)
  {}

  lemma ReclaimExample(db: Db)
    requires 1 in db.payers && OpenClaim(db, 11) && 12 !in db.claims && Link(11, 5) in db.links
    requires 5 in db.receivables && db.receivables[5] == Receivable(1, 3, 6000, PartiallyApplied, 2)
    ensures var after := Do(db, Submit(1, [5], 12));
            TwoClaims(after, 5, 11, 12) && OpenClaim(after, 11) && OpenClaim(after, 12)
  {
    hide Dedup, LinkAll;
    assert 5 in [5];
    SubmitLinks(db, 1, [5], 12);
  }
}
