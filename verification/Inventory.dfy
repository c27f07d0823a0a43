/**
 * The stock ledger of one tenant: an append-only list of signed movements, the recorded
 * counts, the audit trail and the outbox, with the transaction each of the five writers
 * commits. Quantities are integers in ten-thousandths.
 */
module Inventory {
  import opened Basics
  import opened Text

  type StoreId = nat
  type ProductId = nat
  type Unit = string

  datatype MovementType = Inbound | Outbound | Adjustment | TransferOut | TransferIn | CountCorrection

  /** A movement's id is its position in commit order. `source` is the provenance pair. */
  datatype Movement = Movement(store: StoreId, kind: MovementType, quantity: int, unit: Unit,
                               product: Option<ProductId>, reason: Option<string>,
                               source: Option<(string, string)>, group: Option<nat>, count: Option<nat>)

  /**
   * A recorded count. `seen` and `at` locate it: how many movements its on-hand read saw,
   * and how many had committed when it did.
   */
  datatype StockCount = StockCount(store: StoreId, product: ProductId, counted: int, derived: int, unit: Unit,
                                   seen: nat, at: nat)

  datatype Audit =
    | MovementCreated(id: nat)
    | TransferCreated(group: nat, source: StoreId, destination: StoreId)
    | CountRecorded(count: nat, variance: int)
    | MovementBackfilled(id: nat)

  datatype OutboxEvent = MovementEvent(store: StoreId, ids: seq<nat>)

  datatype Ledger = Ledger(stores: set<StoreId>, movements: seq<Movement>, counts: seq<StockCount>,
                           audits: seq<Audit>, events: seq<OutboxEvent>)

  /**
   * How many committed movements each read of the transaction saw. Under READ COMMITTED a
   * read sees some prefix of the commit order, and more may commit before the insert.
   */
  datatype Reads = Reads(first: nat, second: nat)

  datatype Reply =
    | BadRequest
    | NotFound
    | CrossUnit                                  // refused by the read before the insert
    | Aborted                                    // refused by a table constraint
    | Moved(ids: seq<nat>)
    | Redelivered(id: nat)
    | Counted(count: nat, correction: Option<nat>)

  datatype Request =
    | Manual(store: StoreId, kind: MovementType, quantity: int, unit: string, product: Option<ProductId>,
             reason: Option<string>)
    | Transfer(source: StoreId, destination: StoreId, quantity: int, unit: string, item: ProductId,
               reason: Option<string>)
    | Count(store: StoreId, counted: int, unit: string, item: ProductId)
    | Backfill(store: StoreId, restock: bool, kind: MovementType, quantity: int, unit: string,
               product: Option<ProductId>, reason: Option<string>, system: string, external: string)

  // ---- text fields ------------------------------------------------------------------------

  function TrimReason(reason: Option<string>): Option<string> {
    if reason.None? || Trim(reason.value) == "" then None else Some(Trim(reason.value))
  }

  // ---- reads ------------------------------------------------------------------------------

  predicate HasKey(m: Movement, store: StoreId, product: ProductId) {
    m.store == store && m.product == Some(product)
  }

  /** The prefix of the ledger a read saw. */
  function Seen(ms: seq<Movement>, n: nat): seq<Movement> { if n <= |ms| then ms[..n] else ms }

  /** Unit of the key's first movement. */
  function Established(ms: seq<Movement>, store: StoreId, product: ProductId): Option<Unit> {
    if |ms| == 0 then None
    else if HasKey(ms[0], store, product) then Some(ms[0].unit)
    else Established(ms[1..], store, product)
  }

  /** The read before the insert lets `unit` through. */
  predicate UnitAgrees(ms: seq<Movement>, store: StoreId, product: ProductId, unit: Unit) {
    var established := Established(ms, store, product);
    established.None? || established.value == unit
  }

  function QuantityAt(store: StoreId, product: ProductId): Movement -> int {
    (m: Movement) => if HasKey(m, store, product) then m.quantity else 0
  }

  function OnHand(ms: seq<Movement>, store: StoreId, product: ProductId): int {
    Total(ms, QuantityAt(store, product))
  }

  // ---- table constraints --------------------------------------------------------------------

  predicate SameKey(a: Movement, b: Movement) {
    a.store == b.store && a.product == b.product && a.product.Some?
  }

  /** The exclusion constraint: one stocking unit per (store, product). */
  predicate UnitClash(ms: seq<Movement>, m: Movement) {
    exists i :: 0 <= i < |ms| && SameKey(ms[i], m) && ms[i].unit != m.unit
  }

  /** The reason CHECK: at most 500 characters. */
  predicate TooLong(m: Movement) { m.reason.Some? && |m.reason.value| > 500 }

  /** The insert of `m` is refused. */
  predicate Refused(ms: seq<Movement>, m: Movement) { UnitClash(ms, m) || TooLong(m) }

  predicate AnyTooLong(rows: seq<Movement>) { exists i :: 0 <= i < |rows| && TooLong(rows[i]) }

  predicate AnyRefused(ms: seq<Movement>, rows: seq<Movement>) {
    exists i :: 0 <= i < |rows| && Refused(ms, rows[i])
  }

  lemma NothingRefused(ms: seq<Movement>)
    ensures !AnyRefused(ms, []) && !AnyTooLong([])
  {}

  /** Position of the movement holding a provenance pair. */
  function FindSource(ms: seq<Movement>, pair: (string, string)): (r: Option<nat>)
    ensures r.Some? ==> r.value < |ms| && ms[r.value].source == Some(pair)
    ensures r.None? ==> forall i :: 0 <= i < |ms| ==> ms[i].source != Some(pair)
  {
    if |ms| == 0 then None
    else if ms[|ms| - 1].source == Some(pair) then Some(|ms| - 1)
    else FindSource(ms[..|ms| - 1], pair)
  }

  // ---- validation -----------------------------------------------------------------------------

  predicate SignFits(kind: MovementType, quantity: int) {
    quantity != 0 && (kind.Inbound? ==> quantity > 0) && (kind.Outbound? ==> quantity < 0)
  }

  predicate ValidRequest(q: Request) {
    && Trim(q.unit) != ""
    && match q
       case Manual(_, kind, quantity, _, _, reason) =>
         && kind in {Inbound, Outbound, Adjustment}
         && SignFits(kind, quantity)
         && (kind.Adjustment? ==> TrimReason(reason).Some?)
       case Transfer(source, destination, quantity, _, _, _) => source != destination && quantity > 0
       case Count(_, counted, _, _) => counted >= 0
       case Backfill(_, restock, kind, quantity, _, _, _, system, external) =>
         && kind == (if restock then Inbound else Outbound)
         && SignFits(kind, quantity)
         && Trim(system) != "" && Trim(external) != ""
  }

  /** The rows a request inserts after `n` committed movements and `c` counts. */
  function Rows(q: Request, n: nat, c: nat, derived: int): seq<Movement> {
    var unit := Trim(q.unit);
    match q
    case Manual(store, kind, quantity, _, product, reason) =>
      [Movement(store, kind, quantity, unit, product, TrimReason(reason), None, None, None)]
    case Transfer(source, destination, quantity, _, product, reason) =>
      [ Movement(source, TransferOut, -quantity, unit, Some(product), TrimReason(reason), None, Some(n), None),
        Movement(destination, TransferIn, quantity, unit, Some(product), TrimReason(reason), None, Some(n), None)]
    case Count(store, counted, _, product) =>
      if counted == derived then []
      else [Movement(store, CountCorrection, counted - derived, unit, Some(product), Some("count variance"),
                     None, None, Some(c))]
    case Backfill(store, _, kind, quantity, _, product, reason, system, external) =>
      [Movement(store, kind, quantity, unit, product, TrimReason(reason), Some((Trim(system), Trim(external))),
                None, None)]
  }

  function AuditOf(q: Request, n: nat, c: nat, derived: int): Audit {
    match q
    case Manual(_, _, _, _, _, _) => MovementCreated(n)
    case Transfer(source, destination, _, _, _, _) => TransferCreated(n, source, destination)
    case Count(_, counted, _, _) => CountRecorded(c, counted - derived)
    case Backfill(_, _, _, _, _, _, _, _, _) => MovementBackfilled(n)
  }

  function HomeStore(q: Request): StoreId { if q.Transfer? then q.source else q.store }

  /** What the request's own on-hand read returns; only a count makes one. */
  function Derived(l: Ledger, q: Request, r: Reads): int {
    if q.Count? then OnHand(Seen(l.movements, r.second), q.store, q.item) else 0
  }

  /** The unit checks made before any insert. */
  predicate ChecksPass(l: Ledger, q: Request, r: Reads) {
    var unit := Trim(q.unit);
    match q
    case Transfer(source, destination, _, _, product, _) =>
      && UnitAgrees(Seen(l.movements, r.first), source, product, unit)
      && UnitAgrees(Seen(l.movements, r.second), destination, product, unit)
    case Count(store, _, _, product) => UnitAgrees(Seen(l.movements, r.first), store, product, unit)
    case _ => q.product.None? || UnitAgrees(Seen(l.movements, r.first), q.store, q.product.value, unit)
  }

  function Upto(n: nat, k: nat): (ids: seq<nat>)
    ensures |ids| == k && forall i :: 0 <= i < k ==> ids[i] == n + i
  {
    seq(k, i requires 0 <= i < k => n + i)
  }

  /** Everything one accepted request appends, as one transaction. */
  function Post(l: Ledger, q: Request, r: Reads): Ledger {
    var n, c, derived := |l.movements|, |l.counts|, Derived(l, q, r);
    var rows := Rows(q, n, c, derived);
    Ledger(
      l.stores,
      l.movements + rows,
      if q.Count? then l.counts + [StockCount(q.store, q.item, q.counted, derived, Trim(q.unit), Min(r.second, n), n)]
      else l.counts,
      l.audits + [AuditOf(q, n, c, derived)],
      if rows == [] then l.events else l.events + [MovementEvent(HomeStore(q), Upto(n, |rows|))])
  }

  function Previous(l: Ledger, q: Request): Option<nat> {
    if q.Backfill? then FindSource(l.movements, (Trim(q.system), Trim(q.external))) else None
  }

  function Answer(l: Ledger, q: Request, r: Reads): Reply {
    var n, c, derived := |l.movements|, |l.counts|, Derived(l, q, r);
    var rows := Rows(q, n, c, derived);
    if !ValidRequest(q) then BadRequest
    else if q.Transfer? && q.destination !in l.stores then NotFound
    else if !ChecksPass(l, q, r) then CrossUnit
    else if AnyTooLong(rows) then Aborted          // a CHECK is evaluated before ON CONFLICT
    else if Previous(l, q).Some? then Redelivered(Previous(l, q).value)
    else if AnyRefused(l.movements, rows) then Aborted
    else if q.Count? then Counted(c, if rows == [] then None else Some(n))
    else Moved(Upto(n, |rows|))
  }

  /** One request as one transaction: it appends all of its rows or changes nothing. */
  function Step(l: Ledger, q: Request, r: Reads): Ledger {
    if Answer(l, q, r).Moved? || Answer(l, q, r).Counted? then Post(l, q, r) else l
  }
}
