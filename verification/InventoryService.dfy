/** The inventory service over its tables, statement by statement. */
module InventoryService {
  import opened Basics
  import opened Text
  import opened Inventory

  lemma OneRow(ms: seq<Movement>, row: Movement)
    ensures AnyRefused(ms, [row]) <==> Refused(ms, row)
    ensures AnyTooLong([row]) <==> TooLong(row)
    ensures TooLong(row) ==> Refused(ms, row)
  {
    assert [row][0] == row;
  }

  /** The first leg of a transfer never decides the fate of the second: the stores differ. */
  lemma TwoLegs(ms: seq<Movement>, out: Movement, back: Movement)
    requires out.store != back.store
    ensures AnyRefused(ms, [out, back]) <==> Refused(ms, out) || Refused(ms + [out], back)
    ensures AnyTooLong([out, back]) ==> AnyRefused(ms, [out, back])
  {
    assert [out, back][0] == out && [out, back][1] == back;
    if UnitClash(ms, back) {
      var i :| 0 <= i < |ms| && SameKey(ms[i], back) && ms[i].unit != back.unit;
      assert (ms + [out])[i] == ms[i];
    }
  }

  /** The least unit among a key's movements, none exactly when there are none. */
  predicate IsLeastUnit(ms: seq<Movement>, store: StoreId, product: ProductId, unit: Option<Unit>) {
    && (unit.None? <==> forall i :: 0 <= i < |ms| ==> !HasKey(ms[i], store, product))
    && (unit.Some? ==> exists i :: 0 <= i < |ms| && HasKey(ms[i], store, product) && ms[i].unit == unit.value)
    && (forall i :: 0 <= i < |ms| && HasKey(ms[i], store, product) ==> !Before(ms[i].unit, unit.value))
  }

  lemma NoMovements(store: StoreId, product: ProductId)
    ensures OnHand([], store, product) == 0 && IsLeastUnit([], store, product, None)
  {}

  lemma OneMoreMovement(ms: seq<Movement>, m: Movement, store: StoreId, product: ProductId, unit: Option<Unit>)
    requires IsLeastUnit(ms, store, product, unit)
    ensures var next := if HasKey(m, store, product) && (unit.None? || Before(m.unit, unit.value)) then Some(m.unit)
                        else unit;
            IsLeastUnit(ms + [m], store, product, next)
    ensures OnHand(ms + [m], store, product)
         == OnHand(ms, store, product) + if HasKey(m, store, product) then m.quantity else 0
  {
    hide Total;
    var all := ms + [m];
    assert all[|ms|] == m && forall i :: 0 <= i < |ms| ==> all[i] == ms[i];
    TotalSnoc(ms, m, QuantityAt(store, product));
    NotBeforeItself(m.unit);
    if unit.Some? && Before(m.unit, unit.value) {
      forall i | 0 <= i < |ms| && HasKey(ms[i], store, product) ensures !Before(ms[i].unit, m.unit) {
        if Before(ms[i].unit, m.unit) { BeforeTransitive(ms[i].unit, m.unit, unit.value); }
      }
    }
  }

  class InventoryService {
    var stores: set<StoreId>
    var movements: seq<Movement>
    var counts: seq<StockCount>
    var audits: seq<Audit>
    var events: seq<OutboxEvent>

    ghost function Tables(): Ledger
      reads this
    {
      Ledger(stores, movements, counts, audits, events)
    }

    /** `SELECT COALESCE(SUM(quantity), 0), MIN(stocking_unit)` over a key's movements. */
    method GetOnHand(store: StoreId, product: ProductId) returns (quantity: int, unit: Option<Unit>, negative: bool)
      ensures quantity == OnHand(movements, store, product)
      ensures negative <==> OnHand(movements, store, product) < 0
      ensures IsLeastUnit(movements, store, product, unit)
    {
      hide OnHand, IsLeastUnit, HasKey;
      NoMovements(store, product);
      quantity, unit := 0, None;
      for i := 0 to |movements|
        invariant quantity == OnHand(movements[..i], store, product)
        invariant IsLeastUnit(movements[..i], store, product, unit)
      {
        OneMoreMovement(movements[..i], movements[i], store, product, unit);
        assert movements[..i + 1] == movements[..i] + [movements[i]];
        if HasKey(movements[i], store, product) {
          quantity := quantity + movements[i].quantity;
          if unit.None? || Before(movements[i].unit, unit.value) { unit := Some(movements[i].unit); }
        }
      }
      assert movements[..|movements|] == movements;
      negative := quantity < 0;
    }

    /** The unit of a key's first visible movement. */
    method ReadEstablished(store: StoreId, product: ProductId, seen: nat) returns (unit: Option<Unit>)
      ensures unit == Established(Seen(movements, seen), store, product)
    {
      var visible := Seen(movements, seen);
      for i := 0 to |visible|
        invariant Established(visible, store, product) == Established(visible[i..], store, product)
      {
        if HasKey(visible[i], store, product) { return Some(visible[i].unit); }
        assert visible[i..][1..] == visible[i + 1..];
      }
      unit := None;
    }

    method AssertUnitMatchesEstablished(store: StoreId, product: ProductId, unit: Unit, seen: nat)
      returns (ok: bool)
      ensures ok <==> UnitAgrees(Seen(movements, seen), store, product, unit)
    {
      var established := ReadEstablished(store, product, seen);
      ok := established.None? || established.value == unit;
    }

    /** A SELECT on the transaction's client: none is the throw once a statement has failed. */
    method QueryEstablished(aborted: bool, store: StoreId, product: ProductId) returns (unit: Option<Option<Unit>>)
      ensures unit == if aborted then None else Some(Established(movements, store, product))
    {
      if aborted { return None; }
      var established := ReadEstablished(store, product, |movements|);
      assert movements[..|movements|] == movements;
      unit := Some(established);
    }

    /** The exclusion constraint and the CHECK, then the append; a refusal comes out as what is thrown. */
    method InsertMovementRow(row: Movement) returns (thrown: Option<Reply>)
      modifies this`movements
      ensures thrown == if Refused(old(movements), row) then Some(Aborted) else None
      ensures movements == old(movements) + if thrown.None? then [row] else []
    {
      var clash := false;
      for i := 0 to |movements|
        invariant movements == old(movements)
        invariant clash <==> exists j :: 0 <= j < i && SameKey(movements[j], row) && movements[j].unit != row.unit
      {
        if SameKey(movements[i], row) && movements[i].unit != row.unit { clash := true; }
      }
      if !clash && !TooLong(row) {
        movements := movements + [row];
        return None;
      }
      thrown := Some(Aborted);
      if clash && !TooLong(row) && row.product.Some? {
        // meant to answer CrossUnit, but the failed INSERT has aborted the transaction
        var established := QueryEstablished(true, row.store, row.product.value);
        thrown := Some(if established.Some? then CrossUnit else Aborted);
      }
      assert movements == old(movements) + [];
    }

    /** The same INSERT with ON CONFLICT DO NOTHING: the CHECK first, then the pair, then the exclusion. */
    method InsertOnConflict(row: Movement, pair: (string, string))
      returns (thrown: Option<Reply>, existing: Option<nat>)
      modifies this`movements
      ensures thrown == if TooLong(row) || (existing.None? && Refused(old(movements), row)) then Some(Aborted) else None
      ensures existing == if TooLong(row) then None else FindSource(old(movements), pair)
      ensures movements == old(movements) + if thrown.None? && existing.None? then [row] else []
    {
      existing := None;
      if TooLong(row) { return Some(Aborted), None; }
      existing := FindSource(movements, pair);
      if existing.Some? { return None, existing; }
      thrown := InsertMovementRow(row);
    }

    method CreateStockMovement(store: StoreId, kind: MovementType, quantity: int, unit: string,
                               product: Option<ProductId>, reason: Option<string>, reads': Reads)
      returns (reply: Reply)
      modifies this
      ensures var q := Manual(store, kind, quantity, unit, product, reason);
              reply == Answer(old(Tables()), q, reads') && Tables() == Step(old(Tables()), q, reads')
    {
      hide Trim, TrimReason, Established, Refused, AnyRefused, AnyTooLong, TooLong;
      if kind !in {Inbound, Outbound, Adjustment} { return BadRequest; }
      if quantity == 0 { return BadRequest; }
      if kind == Inbound && quantity < 0 { return BadRequest; }
      if kind == Outbound && quantity > 0 { return BadRequest; }
      var note := TrimReason(reason);
      if kind == Adjustment && note.None? { return BadRequest; }
      var stockingUnit := Trim(unit);
      if |stockingUnit| == 0 { return BadRequest; }
      if product.Some? {
        var agrees := AssertUnitMatchesEstablished(store, product.value, stockingUnit, reads'.first);
        if !agrees { return CrossUnit; }
      }
      var id := |movements|;
      var row := Movement(store, kind, quantity, stockingUnit, product, note, None, None, None);
      OneRow(movements, row);
      var thrown := InsertMovementRow(row);
      if thrown.Some? { return thrown.value; }
      audits := audits + [MovementCreated(id)];
      events := events + [MovementEvent(store, [id])];
      assert [id] == Upto(id, 1);
      reply := Moved([id]);
    }

    method CreateStockTransfer(source: StoreId, destination: StoreId, quantity: int, unit: string,
                               product: ProductId, reason: Option<string>, reads': Reads)
      returns (reply: Reply)
      modifies this
      ensures var q := Transfer(source, destination, quantity, unit, product, reason);
              reply == Answer(old(Tables()), q, reads') && Tables() == Step(old(Tables()), q, reads')
    {
      hide Trim, TrimReason, Established, Refused, AnyRefused, AnyTooLong, TooLong;
      if source == destination { return BadRequest; }
      if quantity <= 0 { return BadRequest; }
      var stockingUnit := Trim(unit);
      if |stockingUnit| == 0 { return BadRequest; }
      var note := TrimReason(reason);
      if destination !in stores { return NotFound; }
      var agreesOut := AssertUnitMatchesEstablished(source, product, stockingUnit, reads'.first);
      if !agreesOut { return CrossUnit; }
      var agreesIn := AssertUnitMatchesEstablished(destination, product, stockingUnit, reads'.second);
      if !agreesIn { return CrossUnit; }
      var begin, group := movements, |movements|;
      var out := Movement(source, TransferOut, -quantity, stockingUnit, Some(product), note, None, Some(group), None);
      var back := Movement(destination, TransferIn, quantity, stockingUnit, Some(product), note, None, Some(group),
                           None);
      TwoLegs(movements, out, back);
      var outThrown := InsertMovementRow(out);
      if outThrown.Some? { return outThrown.value; }
      var inThrown := InsertMovementRow(back);
      if inThrown.Some? {
        movements := begin;                    // ROLLBACK
        return inThrown.value;
      }
      audits := audits + [TransferCreated(group, source, destination)];
      events := events + [MovementEvent(source, [group, group + 1])];
      assert [group, group + 1] == Upto(group, 2);
      assert movements == begin + [out, back];
      reply := Moved([group, group + 1]);
    }

    method RecordStockCount(store: StoreId, counted: int, unit: string, product: ProductId, reads': Reads)
      returns (reply: Reply)
      modifies this
      ensures var q := Count(store, counted, unit, product);
              reply == Answer(old(Tables()), q, reads') && Tables() == Step(old(Tables()), q, reads')
    {
      hide Trim, Established, Refused, AnyRefused, OnHand, AnyTooLong, TooLong;
      if counted < 0 { return BadRequest; }
      var stockingUnit := Trim(unit);
      if |stockingUnit| == 0 { return BadRequest; }
      var agrees := AssertUnitMatchesEstablished(store, product, stockingUnit, reads'.first);
      if !agrees { return CrossUnit; }
      var derived := OnHand(Seen(movements, reads'.second), store, product);
      var variance := counted - derived;
      var begin, count, id := counts, |counts|, |movements|;
      counts := counts + [StockCount(store, product, counted, derived, stockingUnit, Min(reads'.second, id), id)];
      var correction := None;
      if variance != 0 {
        var row := Movement(store, CountCorrection, variance, stockingUnit, Some(product), Some("count variance"),
                            None, None, Some(count));
        OneRow(movements, row);
        var thrown := InsertMovementRow(row);
        if thrown.Some? {
          counts := begin;                     // ROLLBACK
          return thrown.value;
        }
        correction := Some(id);
      }
      audits := audits + [CountRecorded(count, variance)];
      if correction.Some? {
        events := events + [MovementEvent(store, [id])];
        assert [id] == Upto(id, 1);
      }
      NothingRefused(old(movements));
      reply := Counted(count, correction);
    }

    /** Both provenance backfills: sales leave stock (`restock` false), returns bring it back. */
    method BackfillMovement(store: StoreId, restock: bool, kind: MovementType, quantity: int, unit: string,
                            product: Option<ProductId>, reason: Option<string>, system: string, external: string,
                            reads': Reads)
      returns (reply: Reply)
      modifies this
      ensures var q := Backfill(store, restock, kind, quantity, unit, product, reason, system, external);
              reply == Answer(old(Tables()), q, reads') && Tables() == Step(old(Tables()), q, reads')
    {
      hide Trim, TrimReason, Established, Refused, AnyRefused, FindSource, AnyTooLong, TooLong;
      if kind != (if restock then Inbound else Outbound) { return BadRequest; }
      if quantity == 0 { return BadRequest; }
      if restock && quantity < 0 { return BadRequest; }
      if !restock && quantity > 0 { return BadRequest; }
      var sourceSystem, externalId := Trim(system), Trim(external);
      if |sourceSystem| == 0 || |externalId| == 0 { return BadRequest; }
      var stockingUnit := Trim(unit);
      if |stockingUnit| == 0 { return BadRequest; }
      var note := TrimReason(reason);
      if product.Some? {
        var agrees := AssertUnitMatchesEstablished(store, product.value, stockingUnit, reads'.first);
        if !agrees { return CrossUnit; }
      }
      var id := |movements|;
      var pair := (sourceSystem, externalId);
      var row := Movement(store, kind, quantity, stockingUnit, product, note, Some(pair), None, None);
      OneRow(movements, row);
      var thrown, existing := InsertOnConflict(row, pair);
      if thrown.Some? { return thrown.value; }
      if existing.Some? { return Redelivered(existing.value); }
      audits := audits + [MovementBackfilled(id)];
      events := events + [MovementEvent(store, [id])];
      assert [id] == Upto(id, 1);
      reply := Moved([id]);
    }
  }

  /** The order `MIN` takes over text. */
  predicate Before(a: string, b: string) {
    b != "" && (a == "" || a[0] < b[0] || (a[0] == b[0] && Before(a[1..], b[1..])))
  }

  lemma {:induction false} NotBeforeItself(a: string)
    ensures !Before(a, a)
  {
    if a != "" { NotBeforeItself(a[1..]); }
  }

  lemma {:induction false} BeforeTransitive(a: string, b: string, c: string)
    requires Before(a, b) && Before(b, c)
    ensures Before(a, c)
  {
    if a != "" && a[0] == b[0] == c[0] { BeforeTransitive(a[1..], b[1..], c[1..]); }
  }
}
