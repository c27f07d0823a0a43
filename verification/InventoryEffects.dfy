/**
 * What each of the five writers answers and appends, in the fields of the request and the
 * columns of the tables.
 */
module InventoryEffects {
  import opened Basics
  import opened Text
  import opened Inventory
  import opened InventoryReads
  import opened InventoryRuns

  // ---- what is refused ---------------------------------------------------------------------------

  /** Nothing but white space. */
  predicate AllBlank(s: string) { forall c :: c in s ==> Blank(c) }

  lemma BadRequestIff(l: Ledger, q: Request, r: Reads)
    ensures Answer(l, q, r) == BadRequest <==>
      || AllBlank(q.unit)
      || (q.Manual? && (|| q.kind !in {Inbound, Outbound, Adjustment}
                        || q.quantity == 0
                        || (q.kind == Inbound && q.quantity < 0)
                        || (q.kind == Outbound && q.quantity > 0)
                        || (q.kind == Adjustment && (q.reason.None? || AllBlank(q.reason.value)))))
      || (q.Transfer? && (q.source == q.destination || q.quantity <= 0))
      || (q.Count? && q.counted < 0)
      || (q.Backfill? && (|| (if q.restock then q.kind != Inbound || q.quantity <= 0
                              else q.kind != Outbound || q.quantity >= 0)
                          || AllBlank(q.system) || AllBlank(q.external)))
  {
    hide Trim, ChecksPass, AnyTooLong, AnyRefused, Rows;
  }

  lemma NotFoundIff(l: Ledger, q: Request, r: Reads)
    ensures Answer(l, q, r) == NotFound <==>
      Answer(l, q, r) != BadRequest && q.Transfer? && q.destination !in l.stores
  {
    hide ValidRequest, ChecksPass, AnyTooLong, AnyRefused, Rows;
  }

  /** Among the first `n` movements the product has one at the store in another unit. */
  predicate OtherUnit(ms: seq<Movement>, n: nat, store: StoreId, product: ProductId, unit: Unit) {
    exists i :: 0 <= i < |ms| && i < n && ms[i].store == store && ms[i].product == Some(product) && ms[i].unit != unit
  }

  lemma DisagreesIff(ms: seq<Movement>, n: nat, store: StoreId, product: ProductId, unit: Unit)
    requires OneUnit(ms)
    ensures !UnitAgrees(Seen(ms, n), store, product, unit) <==> OtherUnit(ms, n, store, product, unit)
  {
    hide Established;
    var seen := Seen(ms, n);
    EstablishedIsThere(seen, store, product);
    if i :| 0 <= i < |ms| && i < n && ms[i].store == store && ms[i].product == Some(product) && ms[i].unit != unit {
      SomeEstablished(seen, i, store, product);
      var j :| 0 <= j < |seen| && HasKey(seen[j], store, product)
               && seen[j].unit == Established(seen, store, product).value;
      assert SameKey(ms[i], ms[j]);
    }
  }

  /** Some store the request touches has the product in another unit, as far as its reads saw. */
  predicate Disagrees(ms: seq<Movement>, q: Request, r: Reads) {
    var unit := Trim(q.unit);
    match q
    case Transfer(source, destination, _, _, item, _) =>
      OtherUnit(ms, r.first, source, item, unit) || OtherUnit(ms, r.second, destination, item, unit)
    case Count(store, _, _, item) => OtherUnit(ms, r.first, store, item, unit)
    case _ => q.product.Some? && OtherUnit(ms, r.first, q.store, q.product.value, unit)
  }

  lemma ChecksFailIff(l: Ledger, q: Request, r: Reads)
    requires OneUnit(l.movements)
    ensures !ChecksPass(l, q, r) <==> Disagrees(l.movements, q, r)
  {
    hide UnitAgrees, OtherUnit, Trim, OneUnit;
    forall n: nat, store, product, unit
      ensures !UnitAgrees(Seen(l.movements, n), store, product, unit) <==>
              OtherUnit(l.movements, n, store, product, unit)
    {
      DisagreesIff(l.movements, n, store, product, unit);
    }
  }

  lemma CrossUnitIff(l: Ledger, q: Request, r: Reads)
    requires OneUnit(l.movements)
    ensures Answer(l, q, r) == CrossUnit <==>
      Answer(l, q, r) !in {BadRequest, NotFound} && Disagrees(l.movements, q, r)
  {
    hide ValidRequest, ChecksPass, Disagrees, AnyTooLong, AnyRefused, Rows, OneUnit;
    ChecksFailIff(l, q, r);
  }

  /** The reason as stored has more characters than its column allows. */
  predicate LongReason(q: Request) { !q.Count? && q.reason.Some? && |Trim(q.reason.value)| > 500 }

  lemma LongReasonIff(q: Request, n: nat, c: nat, derived: int)
    ensures AnyTooLong(Rows(q, n, c, derived)) <==> LongReason(q)
  {
    hide Trim;
    var rows := Rows(q, n, c, derived);
    if !q.Count? { assert TooLong(rows[0]) <==> LongReason(q); }
    if q.Transfer? { assert TooLong(rows[1]) <==> LongReason(q); }
  }

  /** The table refuses a long reason, and a row in another unit than the product has by the time it is inserted. */
  lemma TableRefusesIff(l: Ledger, q: Request, r: Reads)
    requires OneUnit(l.movements)
    ensures Answer(l, q, r) == Aborted <==>
      && Answer(l, q, r) !in {BadRequest, NotFound, CrossUnit}
      && (|| LongReason(q)
          || (&& (q.Backfill? ==> forall i :: 0 <= i < |l.movements| ==>
                    l.movements[i].source != Some((Trim(q.system), Trim(q.external))))
              && (q.Count? ==> q.counted != OnHand(Seen(l.movements, r.second), q.store, q.item))
              && Disagrees(l.movements, q, Latest(l))))
  {
    hide ValidRequest, ChecksPass, AnyTooLong, AnyRefused, OneUnit, Trim, TrimReason, OnHand, Disagrees;
    AbortedIff(l, q, r);
    ChecksFailIff(l, q, Latest(l));
    LongReasonIff(q, |l.movements|, |l.counts|, Derived(l, q, r));
  }

  /** A redelivery is answered with the movement that already holds its provenance pair. */
  lemma RedeliveredIff(l: Ledger, q: Request, r: Reads, i: nat)
    requires OnePerSource(l.movements)
    ensures Answer(l, q, r) == Redelivered(i) <==>
      && Answer(l, q, r) !in {BadRequest, NotFound, CrossUnit} && q.Backfill? && !LongReason(q)
      && i < |l.movements| && l.movements[i].source == Some((Trim(q.system), Trim(q.external)))
  {
    hide ValidRequest, ChecksPass, AnyTooLong, AnyRefused, Rows, Trim, LongReason, FindSource;
    LongReasonIff(q, |l.movements|, |l.counts|, Derived(l, q, r));
  }

  lemma NothingElseWrites(l: Ledger, q: Request, r: Reads)
    ensures !Answer(l, q, r).Moved? && !Answer(l, q, r).Counted? ==> Step(l, q, r) == l
  {
    hide Answer, Post;
  }

  // ---- what is appended ----------------------------------------------------------------------------

  predicate ReasonAsGiven(stored: Option<string>, given: Option<string>) {
    if given.None? || AllBlank(given.value) then stored.None? else stored == Some(Trim(given.value))
  }

  lemma OneRowEffects(l: Ledger, q: Request, r: Reads)
    requires Accepted(l, q, r) && (q.Manual? || q.Backfill?)
    ensures var after, n := Step(l, q, r), |l.movements|;
            && Answer(l, q, r) == Moved([n])
            && |after.movements| == n + 1 && after.movements[..n] == l.movements
            && var m := after.movements[n];
            && m.store == q.store && m.kind == q.kind && m.quantity == q.quantity && m.unit == Trim(q.unit)
            && m.product == q.product && ReasonAsGiven(m.reason, q.reason) && m.group.None? && m.count.None?
            && m.source == (if q.Backfill? then Some((Trim(q.system), Trim(q.external))) else None)
            && after.stores == l.stores && after.counts == l.counts
            && after.audits == l.audits + [if q.Manual? then MovementCreated(n) else MovementBackfilled(n)]
            && after.events == l.events + [MovementEvent(q.store, [n])]
  {
    hide Trim, ValidRequest, ChecksPass, AnyTooLong, AnyRefused, FindSource, OnHand;
    var n := |l.movements|;
    assert (l.movements + NewRows(l, q, r))[..n] == l.movements;
    assert Upto(n, 1) == [n];
  }

  lemma TransferEffects(l: Ledger, q: Request, r: Reads)
    requires Accepted(l, q, r) && q.Transfer?
    ensures var after, n := Step(l, q, r), |l.movements|;
            && Answer(l, q, r) == Moved([n, n + 1])
            && |after.movements| == n + 2 && after.movements[..n] == l.movements
            && var out, back := after.movements[n], after.movements[n + 1];
            && out.store == q.source && out.kind == TransferOut && out.quantity == -q.quantity
            && back.store == q.destination && back.kind == TransferIn && back.quantity == q.quantity
            && out.unit == back.unit == Trim(q.unit) && out.product == back.product == Some(q.item)
            && ReasonAsGiven(out.reason, q.reason) && out.reason == back.reason
            && out.group == back.group == Some(n)
            && out.source == back.source == None && out.count == back.count == None
            && after.stores == l.stores && after.counts == l.counts
            && after.audits == l.audits + [TransferCreated(n, q.source, q.destination)]
            && after.events == l.events + [MovementEvent(q.source, [n, n + 1])]
  {
    hide Trim, ChecksPass, AnyTooLong, AnyRefused;
    var n := |l.movements|;
    assert (l.movements + NewRows(l, q, r))[..n] == l.movements;
    assert Upto(n, 2) == [n, n + 1];
  }

  lemma CountEffects(l: Ledger, q: Request, r: Reads)
    requires Accepted(l, q, r) && q.Count?
    ensures var after, n, c := Step(l, q, r), |l.movements|, |l.counts|;
            var derived := OnHand(Seen(l.movements, r.second), q.store, q.item);
            var variance := q.counted - derived;
            && Answer(l, q, r) == Counted(c, if variance == 0 then None else Some(n))
            && |after.counts| == c + 1 && after.counts[..c] == l.counts
            && var k := after.counts[c];
            && k.store == q.store && k.product == q.item && k.counted == q.counted && k.derived == derived
            && k.unit == Trim(q.unit) && k.seen == Min(r.second, n) && k.at == n
            && (variance == 0 ==> after.movements == l.movements && after.events == l.events)
            && (variance != 0 ==>
                  && |after.movements| == n + 1 && after.movements[..n] == l.movements
                  && after.movements[n] == Movement(q.store, CountCorrection, variance, Trim(q.unit), Some(q.item),
                                                    Some("count variance"), None, None, Some(c))
                  && after.events == l.events + [MovementEvent(q.store, [n])])
            && after.stores == l.stores && after.audits == l.audits + [CountRecorded(c, variance)]
  {
    hide Trim, ChecksPass, AnyTooLong, AnyRefused, OnHand;
    var n := |l.movements|;
    var after := Step(l, q, r);
    assert after.counts[..|l.counts|] == l.counts;
    if NewRows(l, q, r) != [] {
      assert after.movements[..n] == l.movements;
      assert Upto(n, 1) == [n];
    } else {
      assert after.movements == l.movements;
    }
  }
}
