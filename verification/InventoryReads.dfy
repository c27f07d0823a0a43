/** What stale reads do: when a check lets through what the insert refuses, and what a count misses. */
module InventoryReads {
  import opened Basics
  import opened Text
  import opened Inventory
  import opened InventoryRuns

  // ---- stale unit checks -----------------------------------------------------------------------

  lemma {:induction false} EstablishedIsThere(ms: seq<Movement>, store: StoreId, product: ProductId)
    ensures var e := Established(ms, store, product);
            e.Some? ==> exists i :: 0 <= i < |ms| && HasKey(ms[i], store, product) && ms[i].unit == e.value
  {
    if |ms| > 0 && !HasKey(ms[0], store, product) {
      EstablishedIsThere(ms[1..], store, product);
      if Established(ms, store, product).Some? {
        var i :| 0 <= i < |ms[1..]| && HasKey(ms[1..][i], store, product) &&
                 ms[1..][i].unit == Established(ms[1..], store, product).value;
        assert ms[i + 1] == ms[1..][i];
      }
    }
  }

  /** What any read refuses, the insert would refuse too. */
  lemma DisagreementClashes(ms: seq<Movement>, n: nat, row: Movement)
    requires row.product.Some? && !UnitAgrees(Seen(ms, n), row.store, row.product.value, row.unit)
    ensures Refused(ms, row)
  {
    hide Established;
    EstablishedIsThere(Seen(ms, n), row.store, row.product.value);
    var i :| 0 <= i < |Seen(ms, n)| && HasKey(Seen(ms, n)[i], row.store, row.product.value) &&
             Seen(ms, n)[i].unit != row.unit;
    assert SameKey(ms[i], row);
  }

  lemma FailedCheckFailsInsert(l: Ledger, q: Request, r: Reads)
    requires !ChecksPass(l, q, r)
    ensures AnyRefused(l.movements, NewRows(l, q, r)) || (q.Count? && q.counted == Derived(l, q, r))
  {
    hide Trim, TrimReason, Refused, Established, UnitAgrees;
    var ms, rows := l.movements, NewRows(l, q, r);
    if q.Transfer? {
      if !UnitAgrees(Seen(ms, r.first), q.source, q.item, Trim(q.unit)) {
        DisagreementClashes(ms, r.first, rows[0]);
      } else {
        DisagreementClashes(ms, r.second, rows[1]);
      }
    } else if rows != [] {
      DisagreementClashes(ms, r.first, rows[0]);
    }
  }

  /**
   * How stale a unit check was never shows in the ledger: a check that missed the clashing
   * movement is caught by the insert.
   */
  lemma StaleCheckUnseen(l: Ledger, q: Request, r: Reads, fresher: Reads)
    requires !q.Count?
    ensures Step(l, q, r) == Step(l, q, fresher)
  {
    hide Rows, ChecksPass, AnyRefused, ValidRequest, AuditOf, FindSource;
    if !ChecksPass(l, q, r) { FailedCheckFailsInsert(l, q, r); }
    if !ChecksPass(l, q, fresher) { FailedCheckFailsInsert(l, q, fresher); }
  }

  /**
   * A count is the exception: with no variance it inserts no movement, so nothing catches a
   * stale check and the count is recorded in a unit the product does not have.
   */
  lemma StaleCheckOfCount(l: Ledger, q: Request, r: Reads, first: nat)
    requires q.Count?
    ensures var one, two := Step(l, q, r), Step(l, q, Reads(first, r.second));
            && one.movements == two.movements && one.events == two.events
            && (one != two <==>
                  && ValidRequest(q) && q.counted == Derived(l, q, r)
                  && ChecksPass(l, q, r) != ChecksPass(l, q, Reads(first, r.second)))
  {
    hide ChecksPass, AnyRefused, Trim, OnHand;
    var other := Reads(first, r.second);
    if !ChecksPass(l, q, r) { FailedCheckFailsInsert(l, q, r); }
    if !ChecksPass(l, q, other) { FailedCheckFailsInsert(l, q, other); }
    assert |NewRows(l, q, r)| == 0 <==> q.counted == Derived(l, q, r);
    assert !AnyRefused(l.movements, []) by { NothingRefused(l.movements); }
  }

  // ---- which error a unit conflict gets -----------------------------------------------------------

  /** Reads that see every committed movement. */
  function Latest(l: Ledger): Reads { Reads(|l.movements|, |l.movements|) }

  lemma {:induction false} EstablishedInPrefix(ms: seq<Movement>, n: nat, store: StoreId, product: ProductId)
    requires n <= |ms| && Established(ms[..n], store, product).Some?
    ensures Established(ms, store, product) == Established(ms[..n], store, product)
  {
    if n > 0 && !HasKey(ms[0], store, product) {
      assert ms[..n][1..] == ms[1..][..n - 1];
      EstablishedInPrefix(ms[1..], n - 1, store, product);
    }
  }

  /** A check passes wrongly exactly when it saw no movement of the key while there is one, in another unit. */
  lemma PassedByMissing(ms: seq<Movement>, n: nat, store: StoreId, product: ProductId, unit: Unit)
    ensures UnitAgrees(Seen(ms, n), store, product, unit) && !UnitAgrees(ms, store, product, unit) <==>
      && Established(Seen(ms, n), store, product).None?
      && Established(ms, store, product).Some? && Established(ms, store, product).value != unit
  {
    hide Established;
    if n <= |ms| && Established(Seen(ms, n), store, product).Some? { EstablishedInPrefix(ms, n, store, product); }
  }

  lemma {:induction false} SomeEstablished(ms: seq<Movement>, i: nat, store: StoreId, product: ProductId)
    requires i < |ms| && HasKey(ms[i], store, product)
    ensures Established(ms, store, product).Some?
  {
    if !HasKey(ms[0], store, product) {
      assert ms[1..][i - 1] == ms[i];
      SomeEstablished(ms[1..], i - 1, store, product);
    }
  }

  lemma ClashDisagrees(ms: seq<Movement>, row: Movement)
    requires OneUnit(ms) && UnitClash(ms, row)
    ensures row.product.Some? && !UnitAgrees(ms, row.store, row.product.value, row.unit)
  {
    hide Established;
    var i :| 0 <= i < |ms| && SameKey(ms[i], row) && ms[i].unit != row.unit;
    SomeEstablished(ms, i, row.store, row.product.value);
    EstablishedIsThere(ms, row.store, row.product.value);
    var j :| 0 <= j < |ms| && HasKey(ms[j], row.store, row.product.value) &&
             ms[j].unit == Established(ms, row.store, row.product.value).value;
    assert SameKey(ms[i], ms[j]);
  }

  /** The inserts clash exactly when a check of the whole ledger would have failed. */
  lemma ClashIff(l: Ledger, q: Request, r: Reads)
    requires OneUnit(l.movements) && NewRows(l, q, r) != [] && !AnyTooLong(NewRows(l, q, r))
    ensures AnyRefused(l.movements, NewRows(l, q, r)) <==> !ChecksPass(l, q, Latest(l))
  {
    hide Trim, TrimReason, Established, UnitAgrees, TooLong, UnitClash, OneUnit, OnHand;
    var ms, rows := l.movements, NewRows(l, q, r);
    assert Seen(ms, |ms|) == ms;
    if !ChecksPass(l, q, Latest(l)) {
      SameRowsFresh(l, q, r);
    }
    if i :| 0 <= i < |rows| && Refused(ms, rows[i]) {
      ClashDisagrees(ms, rows[i]);
    }
  }

  /** A failed check of the whole ledger is a row that clashes, whatever a count read. */
  lemma SameRowsFresh(l: Ledger, q: Request, r: Reads)
    requires !ChecksPass(l, q, Latest(l)) && NewRows(l, q, r) != []
    ensures AnyRefused(l.movements, NewRows(l, q, r))
  {
    hide Trim, TrimReason, Refused, Established, UnitAgrees, OnHand;
    var ms, rows, all := l.movements, NewRows(l, q, r), |l.movements|;
    if q.Transfer? && UnitAgrees(Seen(ms, all), q.source, q.item, Trim(q.unit)) {
      DisagreementClashes(ms, all, rows[1]);
    } else {
      DisagreementClashes(ms, all, rows[0]);
    }
  }

  /**
   * The exact condition for a refusal by the table rather than by the check, and so for an
   * error other than the unit one: a row with an over-long reason; or rows to insert that are
   * no redelivery, whose check passed on the movements it saw and would fail on all of them.
   */
  lemma AbortedIff(l: Ledger, q: Request, r: Reads)
    requires OneUnit(l.movements)
    ensures Answer(l, q, r) == Aborted <==>
      && ValidRequest(q) && (q.Transfer? ==> q.destination in l.stores) && ChecksPass(l, q, r)
      && (|| AnyTooLong(NewRows(l, q, r))
          || (Previous(l, q).None? && NewRows(l, q, r) != [] && !ChecksPass(l, q, Latest(l))))
  {
    hide Rows, ChecksPass, AnyTooLong, AnyRefused, ValidRequest, OneUnit, FindSource;
    var rows := NewRows(l, q, r);
    if rows == [] {
      NothingRefused(l.movements);
    } else if !AnyTooLong(rows) {
      ClashIff(l, q, r);
    }
  }

  /** Reads that cover the ledger never run into the table's unit constraint. */
  lemma LatestNeverClashes(l: Ledger, q: Request)
    requires OneUnit(l.movements) && !AnyTooLong(NewRows(l, q, Latest(l)))
    ensures Answer(l, q, Latest(l)) != Aborted
  {
    hide Answer, OneUnit, ChecksPass, AnyTooLong;
    AbortedIff(l, q, Latest(l));
  }

  // ---- reachable examples ----------------------------------------------------------------------------

  function Receive(quantity: int, unit: string): Request {
    Manual(0, if quantity > 0 then Inbound else Outbound, quantity, unit, Some(0), None)
  }

  function Received(quantity: int, unit: string): Movement {
    Movement(0, if quantity > 0 then Inbound else Outbound, quantity, unit, Some(0), None, None, None, None)
  }

  /** The unit is already trimmed, and the ledger has no other unit for it. */
  lemma Receives(l: Ledger, quantity: int, unit: string, r: Reads)
    requires quantity != 0 && unit != "" && !Blank(unit[0]) && !Blank(unit[|unit| - 1])
    requires forall i :: 0 <= i < |l.movements| ==> l.movements[i].unit == unit
    ensures Step(l, Receive(quantity, unit), r).movements == l.movements + [Received(quantity, unit)]
    ensures Step(l, Receive(quantity, unit), r).counts == l.counts
  {
    hide Trim, Established;
    TrimKeeps(unit);
    EstablishedIsThere(Seen(l.movements, r.first), 0, 0);
    assert Rows(Receive(quantity, unit), |l.movements|, |l.counts|, 0) == [Received(quantity, unit)];
  }

  lemma OneReceipt(quantity: int, unit: string)
    requires quantity != 0 && unit != "" && !Blank(unit[0]) && !Blank(unit[|unit| - 1])
    ensures var l := Run(Empty({}), [Act(Receive(quantity, unit), Reads(0, 0))]);
            l.movements == [Received(quantity, unit)] && l.counts == []
  {
    hide Step;
    Receives(Empty({}), quantity, unit, Reads(0, 0));
    assert [Act(Receive(quantity, unit), Reads(0, 0))][..0] == [];
  }

  /** A check that saw nothing lets another unit through to the insert; a check that saw all does not. */
  lemma AbortedExample()
    ensures var l := Run(Empty({}), [Act(Receive(1, "ea"), Reads(0, 0))]);
            Answer(l, Receive(1, "kg"), Reads(0, 0)) == Aborted && Answer(l, Receive(1, "kg"), Latest(l)) == CrossUnit
  {
    hide Run, Trim;
    OneReceipt(1, "ea");
    TrimKeeps("kg");
    var l := Run(Empty({}), [Act(Receive(1, "ea"), Reads(0, 0))]);
    assert Rows(Receive(1, "kg"), 1, 0, 0) == [Received(1, "kg")];
    assert SameKey(l.movements[0], [Received(1, "kg")][0]) && Refused(l.movements, [Received(1, "kg")][0]);
    assert "ea" != "kg";
  }

  /** A count of 5 whose reads both ran before the receipt of one unit committed leaves 6 on hand. */
  lemma MissedMovementExample()
    ensures var acts := [Act(Receive(1, "ea"), Reads(0, 0)), Act(Count(0, 5, "ea", 0), Reads(0, 0))];
            var l := Run(Empty({}), acts);
            && |l.counts| == 1 && l.counts[0].counted == 5 && l.counts[0].seen <= l.counts[0].at <= |l.movements|
            && OnHand(l.movements[l.counts[0].seen..l.counts[0].at], 0, 0) == 1
            && OnHand(l.movements, 0, 0) == 6
  {
    var acts := [Act(Receive(1, "ea"), Reads(0, 0)), Act(Count(0, 5, "ea", 0), Reads(0, 0))];
    var one := Run(Empty({}), acts[..1]);
    assert acts[..1] == [Act(Receive(1, "ea"), Reads(0, 0))];
    OneReceipt(1, "ea");
    CountMisses(one);
  }

  lemma CountMisses(one: Ledger)
    requires one.movements == [Received(1, "ea")] && one.counts == []
    ensures var l := Step(one, Count(0, 5, "ea", 0), Reads(0, 0));
            && |l.counts| == 1 && l.counts[0].counted == 5 && l.counts[0].seen <= l.counts[0].at <= |l.movements|
            && OnHand(l.movements[l.counts[0].seen..l.counts[0].at], 0, 0) == 1
            && OnHand(l.movements, 0, 0) == 6
  {
    hide Trim;
    TrimKeeps("ea");
    var correction := Movement(0, CountCorrection, 5, "ea", Some(0), Some("count variance"), None, None, Some(0));
    var l := Step(one, Count(0, 5, "ea", 0), Reads(0, 0));
    assert Derived(one, Count(0, 5, "ea", 0), Reads(0, 0)) == 0;
    assert Rows(Count(0, 5, "ea", 0), 1, 0, 0) == [correction];
    assert l.movements == one.movements + [correction];
    assert l.movements[0..1] == one.movements;
    TotalSnoc(one.movements, correction, QuantityAt(0, 0));
    TotalSnoc([], Received(1, "ea"), QuantityAt(0, 0));
    assert [] + [Received(1, "ea")] == one.movements;
  }

  /** Five in, five out, and a zero count in another unit whose check saw neither: it is recorded. */
  lemma StaleCountExample()
    ensures var acts := [Act(Receive(5, "ea"), Reads(0, 0)), Act(Receive(-5, "ea"), Reads(1, 1))];
            var l, count := Run(Empty({}), acts), Count(0, 0, "kg", 0);
            && Step(l, count, Reads(0, 2)).counts == [StockCount(0, 0, 0, 0, "kg", 2, 2)]
            && Step(l, count, Reads(2, 2)) == l
  {
    var acts := [Act(Receive(5, "ea"), Reads(0, 0)), Act(Receive(-5, "ea"), Reads(1, 1))];
    assert acts[..1] == [Act(Receive(5, "ea"), Reads(0, 0))];
    OneReceipt(5, "ea");
    Receives(Run(Empty({}), acts[..1]), -5, "ea", Reads(1, 1));
    CountsInAnotherUnit(Run(Empty({}), acts));
  }

  lemma CountsInAnotherUnit(l: Ledger)
    requires l.movements == [Received(5, "ea"), Received(-5, "ea")] && l.counts == []
    ensures var count := Count(0, 0, "kg", 0);
            && Step(l, count, Reads(0, 2)).counts == [StockCount(0, 0, 0, 0, "kg", 2, 2)]
            && Step(l, count, Reads(2, 2)) == l
  {
    hide Trim;
    TrimKeeps("kg");
    assert "ea" != "kg";
    assert Seen(l.movements, 2) == [Received(5, "ea")] + [Received(-5, "ea")];
    TotalSnoc([Received(5, "ea")], Received(-5, "ea"), QuantityAt(0, 0));
    TotalSnoc([], Received(5, "ea"), QuantityAt(0, 0));
    assert [] + [Received(5, "ea")] == [Received(5, "ea")];
    assert Derived(l, Count(0, 0, "kg", 0), Reads(0, 2)) == 0;
    NothingRefused(l.movements);
    assert HasKey(Seen(l.movements, 2)[0], 0, 0);
  }
}
