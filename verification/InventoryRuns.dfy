/** Whole runs of the stock ledger: any requests, accepted or refused, with reads as stale as they come. */
module InventoryRuns {
  import opened Basics
  import opened Text
  import opened Inventory

  datatype Act = Act(request: Request, reads': Reads)

  function Run(l: Ledger, acts: seq<Act>): Ledger {
    if |acts| == 0 then l
    else
      var a := acts[|acts| - 1];
      Step(Run(l, acts[..|acts| - 1]), a.request, a.reads')
  }

  function Empty(stores: set<StoreId>): Ledger { Ledger(stores, [], [], [], []) }

  predicate Accepted(l: Ledger, q: Request, r: Reads) {
    Answer(l, q, r).Moved? || Answer(l, q, r).Counted?
  }

  // ---- what every ledger keeps --------------------------------------------------------------

  /** All movements of a (store, product) carry one unit. */
  predicate OneUnit(ms: seq<Movement>) {
    forall i, j :: 0 <= i < |ms| && 0 <= j < |ms| && SameKey(ms[i], ms[j]) ==> ms[i].unit == ms[j].unit
  }

  /** No two movements share a provenance pair. */
  predicate OnePerSource(ms: seq<Movement>) {
    forall i, j :: 0 <= i < j < |ms| && ms[i].source.Some? ==> ms[i].source != ms[j].source
  }

  /** Signs agree with types, nothing is zero, and every unit is named. */
  predicate GoodRow(m: Movement) {
    && SignFits(m.kind, m.quantity)
    && (m.kind.TransferOut? ==> m.quantity < 0)
    && (m.kind.TransferIn? ==> m.quantity > 0)
    && (m.kind.Adjustment? ==> m.reason.Some?)
    && m.unit != ""
    && (m.group.Some? <==> m.kind in {TransferOut, TransferIn})
    && (m.count.Some? <==> m.kind.CountCorrection?)
    && (m.source.Some? ==> m.kind in {Inbound, Outbound})
  }

  predicate GoodRows(ms: seq<Movement>) { forall i :: 0 <= i < |ms| ==> GoodRow(ms[i]) }

  /** The two halves of transfer group `g`. */
  predicate Legs(out: Movement, back: Movement, g: nat) {
    && out.kind == TransferOut && back.kind == TransferIn
    && out.group == Some(g) && back.group == Some(g)
    && out.quantity == -back.quantity
    && out.product == back.product && out.product.Some? && out.store != back.store
  }

  /** The leg at `i` stands beside its counterpart. */
  predicate LegHolds(ms: seq<Movement>, i: nat)
    requires i < |ms|
  {
    ms[i].group.Some? ==>
      var g := ms[i].group.value;
      (g == i || g + 1 == i) && g + 1 < |ms| && Legs(ms[g], ms[g + 1], g)
  }

  /** Every leg stands beside its counterpart. */
  predicate WholeTransfers(ms: seq<Movement>) {
    forall i :: 0 <= i < |ms| ==> LegHolds(ms, i)
  }

  /** A count's correction exists exactly when its variance is not zero. */
  predicate CountHolds(ms: seq<Movement>, c: nat, k: StockCount) {
    && k.seen <= k.at <= |ms|
    && k.counted >= 0
    && k.derived == OnHand(ms[..k.seen], k.store, k.product)
    && (k.counted != k.derived ==>
          && k.at < |ms|
          && HasKey(ms[k.at], k.store, k.product)
          && ms[k.at].quantity == k.counted - k.derived
          && ms[k.at].count == Some(c))
  }

  predicate Corrections(ms: seq<Movement>, counts: seq<StockCount>) {
    && (forall c :: 0 <= c < |counts| ==> CountHolds(ms, c, counts[c]))
    && (forall i :: 0 <= i < |ms| && ms[i].count.Some? ==>
          var c := ms[i].count.value;
          c < |counts| && counts[c].at == i && counts[c].counted != counts[c].derived)
  }

  function Named(events: seq<OutboxEvent>): seq<nat> {
    if |events| == 0 then [] else Named(events[..|events| - 1]) + events[|events| - 1].ids
  }

  function ZeroVariance(k: StockCount): int { if k.counted == k.derived then 1 else 0 }

  /** The events, read in order, name every movement exactly once; counts without a variance have none. */
  predicate Announced(l: Ledger) {
    && Named(l.events) == Upto(0, |l.movements|)
    && |l.audits| == |l.events| + Total(l.counts, ZeroVariance)
    && forall e :: 0 <= e < |l.events| ==> 1 <= |l.events[e].ids| <= 2
  }

  /** An event goes to the store of the first movement it names, and names both legs of a transfer. */
  predicate EventHolds(ms: seq<Movement>, e: OutboxEvent) {
    && 1 <= |e.ids| <= 2 && e.ids[0] < |ms| && e.store == ms[e.ids[0]].store
    && (|e.ids| == 2 <==> ms[e.ids[0]].kind == TransferOut)
    && (|e.ids| == 2 ==> e.ids[1] == e.ids[0] + 1 < |ms|)
  }

  /** What an audit row names is there, and is what the row says it is. */
  predicate AuditHolds(ms: seq<Movement>, counts: seq<StockCount>, a: Audit) {
    match a
    case MovementCreated(i) => i < |ms| && ms[i].kind in {Inbound, Outbound, Adjustment} && ms[i].source.None?
    case MovementBackfilled(i) => i < |ms| && ms[i].source.Some?
    case TransferCreated(g, source, destination) =>
      g + 1 < |ms| && Legs(ms[g], ms[g + 1], g) && ms[g].store == source && ms[g + 1].store == destination
    case CountRecorded(c, variance) => c < |counts| && variance == counts[c].counted - counts[c].derived
  }

  predicate Recorded(l: Ledger) {
    && (forall e :: 0 <= e < |l.events| ==> EventHolds(l.movements, l.events[e]))
    && (forall a :: 0 <= a < |l.audits| ==> AuditHolds(l.movements, l.counts, l.audits[a]))
  }

  function QuantityOf(p: ProductId): Movement -> int {
    (m: Movement) => if m.product == Some(p) then m.quantity else 0
  }

  function NonTransferOf(p: ProductId): Movement -> int {
    (m: Movement) => if m.product == Some(p) && m.group.None? then m.quantity else 0
  }

  /** Transfers cancel: a product's stock over all stores is its non-transfer movements. */
  ghost predicate TransfersCancel(ms: seq<Movement>) {
    forall p: ProductId :: Total(ms, QuantityOf(p)) == Total(ms, NonTransferOf(p))
  }

  ghost predicate Inv(l: Ledger) {
    && OneUnit(l.movements)
    && OnePerSource(l.movements)
    && GoodRows(l.movements)
    && WholeTransfers(l.movements)
    && Corrections(l.movements, l.counts)
    && Announced(l)
    && Recorded(l)
    && TransfersCancel(l.movements)
  }

  // ---- one step ------------------------------------------------------------------------------

  function NewRows(l: Ledger, q: Request, r: Reads): seq<Movement> {
    Rows(q, |l.movements|, |l.counts|, Derived(l, q, r))
  }

  lemma UnitsStay(ms: seq<Movement>, rows: seq<Movement>)
    requires OneUnit(ms) && !AnyRefused(ms, rows) && |rows| <= 2
    requires |rows| == 2 ==> rows[0].store != rows[1].store
    ensures OneUnit(ms + rows)
  {
    var all := ms + rows;
    forall i, j | 0 <= i < |all| && 0 <= j < |all| && SameKey(all[i], all[j]) ensures all[i].unit == all[j].unit {
      if i >= |ms| { assert !Refused(ms, rows[i - |ms|]); }
      if j >= |ms| { assert !Refused(ms, rows[j - |ms|]); }
    }
  }

  lemma RowsAreGood(l: Ledger, q: Request, r: Reads)
    requires ValidRequest(q)
    ensures GoodRows(NewRows(l, q, r))
    ensures |NewRows(l, q, r)| == if q.Transfer? then 2 else if q.Count? && q.counted == Derived(l, q, r) then 0 else 1
    ensures q.Transfer? ==> Legs(NewRows(l, q, r)[0], NewRows(l, q, r)[1], |l.movements|)
    ensures !q.Transfer? ==> forall i :: 0 <= i < |NewRows(l, q, r)| ==> NewRows(l, q, r)[i].group.None?
  {
    hide Trim;
  }

  lemma TransfersStayWhole(l: Ledger, q: Request, r: Reads)
    requires WholeTransfers(l.movements) && ValidRequest(q)
    ensures WholeTransfers(l.movements + NewRows(l, q, r))
  {
    hide Rows, ValidRequest, GoodRow;
    RowsAreGood(l, q, r);
    AppendWhole(l.movements, NewRows(l, q, r));
  }

  /** Appending a whole transfer, or rows outside any, leaves every transfer whole. */
  lemma AppendWhole(ms: seq<Movement>, rows: seq<Movement>)
    requires WholeTransfers(ms)
    requires || (forall i :: 0 <= i < |rows| ==> rows[i].group.None?)
             || (|rows| == 2 && Legs(rows[0], rows[1], |ms|))
    ensures WholeTransfers(ms + rows)
  {
    hide LegHolds;
    var all := ms + rows;
    forall i: nat | i < |all| ensures LegHolds(all, i) {
      if i < |ms| { OldLeg(ms, rows, i); } else { NewLeg(ms, rows, i); }
    }
  }

  lemma OldLeg(ms: seq<Movement>, rows: seq<Movement>, i: nat)
    requires WholeTransfers(ms) && i < |ms|
    ensures LegHolds(ms + rows, i)
  {
    hide Legs;
    assert LegHolds(ms, i);
    assert forall j :: 0 <= j < |ms| ==> (ms + rows)[j] == ms[j];
  }

  lemma NewLeg(ms: seq<Movement>, rows: seq<Movement>, i: nat)
    requires |ms| <= i < |ms + rows|
    requires || (forall i :: 0 <= i < |rows| ==> rows[i].group.None?)
             || (|rows| == 2 && Legs(rows[0], rows[1], |ms|))
    ensures LegHolds(ms + rows, i)
  {
    hide Legs;
    assert (ms + rows)[i] == rows[i - |ms|];
    if rows[i - |ms|].group.Some? {
      LegsGroups(rows[0], rows[1], |ms|);
      assert (ms + rows)[|ms|] == rows[0] && (ms + rows)[|ms| + 1] == rows[1];
    }
  }

  lemma LegsGroups(out: Movement, back: Movement, g: nat)
    requires Legs(out, back, g)
    ensures out.group == back.group == Some(g)
  {}

  lemma SourcesStay(l: Ledger, q: Request, r: Reads)
    requires OnePerSource(l.movements) && ValidRequest(q) && Previous(l, q).None?
    ensures OnePerSource(l.movements + NewRows(l, q, r))
  {
    hide Trim, TrimReason;
    var ms, rows := l.movements, NewRows(l, q, r);
    assert q.Backfill? ==> forall i :: 0 <= i < |ms| ==> ms[i].source != rows[0].source;
  }

  lemma CorrectionsStay(l: Ledger, q: Request, r: Reads)
    requires Corrections(l.movements, l.counts) && ValidRequest(q)
    ensures Corrections(Post(l, q, r).movements, Post(l, q, r).counts)
  {
    hide Trim, TrimReason, OnHand;
    var ms, all, cs := l.movements, Post(l, q, r).movements, Post(l, q, r).counts;
    forall c | 0 <= c < |cs| ensures CountHolds(all, c, cs[c]) {
      if c < |l.counts| {
        assert CountHolds(ms, c, l.counts[c]);
        assert all[..l.counts[c].seen] == ms[..l.counts[c].seen];
      } else {
        assert all[..cs[c].seen] == Seen(ms, r.second);
      }
    }
  }

  lemma EventsStay(l: Ledger, q: Request, r: Reads)
    requires Announced(l) && ValidRequest(q)
    ensures Announced(Post(l, q, r))
  {
    hide Rows, Derived, Trim, ValidRequest;
    RowsAreGood(l, q, r);
    var rows, after, n := NewRows(l, q, r), Post(l, q, r), |l.movements|;
    if rows != [] {
      assert after.events[..|after.events| - 1] == l.events;
      assert Upto(0, n + |rows|) == Upto(0, n) + Upto(n, |rows|);
    }
    if q.Count? { TotalSnoc(l.counts, after.counts[|l.counts|], ZeroVariance); }
  }

  lemma RecordsStay(l: Ledger, q: Request, r: Reads)
    requires Recorded(l) && ValidRequest(q)
    ensures Recorded(Post(l, q, r))
  {
    hide Trim, TrimReason, Derived, EventHolds, AuditHolds;
    var after := Post(l, q, r);
    forall e | 0 <= e < |after.events| ensures EventHolds(after.movements, after.events[e]) {
      if e < |l.events| {
        EventStays(l.movements, NewRows(l, q, r), l.events[e]);
      } else {
        NewEvent(l, q, r);
      }
    }
    forall a | 0 <= a < |after.audits| ensures AuditHolds(after.movements, after.counts, after.audits[a]) {
      if a < |l.audits| {
        AuditStays(l.movements, NewRows(l, q, r), l.counts, after.counts, l.audits[a]);
      } else {
        NewAudit(l, q, r);
      }
    }
  }

  lemma EventStays(ms: seq<Movement>, rows: seq<Movement>, e: OutboxEvent)
    requires EventHolds(ms, e)
    ensures EventHolds(ms + rows, e)
  {}

  lemma AuditStays(ms: seq<Movement>, rows: seq<Movement>, counts: seq<StockCount>, counts': seq<StockCount>, a: Audit)
    requires AuditHolds(ms, counts, a) && counts <= counts'
    ensures AuditHolds(ms + rows, counts', a)
  {}

  lemma NewEvent(l: Ledger, q: Request, r: Reads)
    requires ValidRequest(q) && NewRows(l, q, r) != []
    ensures var after := Post(l, q, r);
            EventHolds(after.movements, after.events[|l.events|])
  {
    hide Trim, TrimReason, Derived;
    assert Post(l, q, r).movements[|l.movements|] == NewRows(l, q, r)[0];
  }

  lemma NewAudit(l: Ledger, q: Request, r: Reads)
    requires ValidRequest(q)
    ensures var after := Post(l, q, r);
            AuditHolds(after.movements, after.counts, after.audits[|l.audits|])
  {
    hide Trim, TrimReason, Derived;
    var ms, rows := l.movements, NewRows(l, q, r);
    if rows != [] { assert (ms + rows)[|ms|] == rows[0]; }
    if q.Transfer? { assert (ms + rows)[|ms| + 1] == rows[1]; }
  }

  lemma LegsCancel(out: Movement, back: Movement, g: nat, p: ProductId)
    requires Legs(out, back, g)
    ensures Total([out, back], QuantityOf(p)) == 0 == Total([out, back], NonTransferOf(p))
  {
    assert [out, back] == [out] + [back];
    TotalSnoc([out], back, QuantityOf(p));
    TotalSnoc([], out, QuantityOf(p));
    TotalSnoc([out], back, NonTransferOf(p));
    TotalSnoc([], out, NonTransferOf(p));
    assert [] + [out] == [out];
  }

  lemma CancelStays(l: Ledger, q: Request, r: Reads)
    requires TransfersCancel(l.movements) && ValidRequest(q)
    ensures TransfersCancel(l.movements + NewRows(l, q, r))
  {
    hide Rows, ValidRequest, GoodRow, Total;
    RowsAreGood(l, q, r);
    var ms, rows := l.movements, NewRows(l, q, r);
    forall p: ProductId
      ensures Total(ms + rows, QuantityOf(p)) == Total(ms + rows, NonTransferOf(p))
    {
      TotalConcat(ms, rows, QuantityOf(p));
      TotalConcat(ms, rows, NonTransferOf(p));
      if q.Transfer? {
        assert rows == [rows[0], rows[1]];
        LegsCancel(rows[0], rows[1], |ms|, p);
      } else {
        SameTotal(rows, QuantityOf(p), NonTransferOf(p));
      }
    }
  }

  lemma StepKeeps(l: Ledger, q: Request, r: Reads)
    requires Inv(l)
    ensures Inv(Step(l, q, r))
  {
    hide Rows, ValidRequest, Refused, UnitAgrees, OneUnit, OnePerSource, GoodRow, WholeTransfers, Corrections,
      Announced, Recorded, TransfersCancel;
    if Accepted(l, q, r) {
      var rows := NewRows(l, q, r);
      RowsAreGood(l, q, r);
      assert |rows| == 2 ==> rows[0].store != rows[1].store;
      UnitsStay(l.movements, rows);
      SourcesStay(l, q, r);
      TransfersStayWhole(l, q, r);
      CorrectionsStay(l, q, r);
      EventsStay(l, q, r);
      RecordsStay(l, q, r);
      CancelStays(l, q, r);
    }
  }

  /** Every run keeps all of it. */
  lemma {:induction false} RunKeeps(l: Ledger, acts: seq<Act>)
    requires Inv(l)
    ensures Inv(Run(l, acts))
  {
    hide Inv, Step;
    if |acts| > 0 {
      var a := acts[|acts| - 1];
      RunKeeps(l, acts[..|acts| - 1]);
      StepKeeps(Run(l, acts[..|acts| - 1]), a.request, a.reads');
    }
  }

  lemma EmptyIsGood(stores: set<StoreId>)
    ensures Inv(Empty(stores))
  {}

  /** From an empty ledger, whatever is asked and however stale the reads. */
  lemma EveryLedger(stores: set<StoreId>, acts: seq<Act>)
    ensures Inv(Run(Empty(stores), acts))
  {
    EmptyIsGood(stores);
    RunKeeps(Empty(stores), acts);
  }

  // ---- what follows --------------------------------------------------------------------------

  /** History is only ever extended. */
  lemma {:induction false} HistoryExtends(l: Ledger, acts: seq<Act>)
    ensures l.movements <= Run(l, acts).movements && l.counts <= Run(l, acts).counts
    ensures l.audits <= Run(l, acts).audits && l.events <= Run(l, acts).events
  {
    hide Answer, Rows, AuditOf;
    if |acts| > 0 { HistoryExtends(l, acts[..|acts| - 1]); }
  }

  /** Position just past a count's own correction. */
  function After(k: StockCount): nat { if k.counted == k.derived then k.at else k.at + 1 }

  /** A key's total just past a count: what the count read, what it missed, and its correction. */
  lemma TotalAfterCount(ms: seq<Movement>, c: nat, k: StockCount)
    requires CountHolds(ms, c, k)
    ensures After(k) <= |ms|
    ensures OnHand(ms[..After(k)], k.store, k.product)
         == k.counted + OnHand(ms[k.seen..k.at], k.store, k.product)
  {
    hide Total;
    var f := QuantityAt(k.store, k.product);
    TwoParts(ms[..k.at], k.seen, f);
    assert ms[..k.at][..k.seen] == ms[..k.seen] && ms[..k.at][k.seen..] == ms[k.seen..k.at];
    if k.counted != k.derived {
      TotalSnoc(ms[..k.at], ms[k.at], f);
      assert ms[..k.at + 1] == ms[..k.at] + [ms[k.at]];
    }
  }

  /**
   * On-hand is any count's quantity plus the movements after it, plus whatever committed
   * between the count's on-hand read and its correction; so a count resets on-hand to the
   * counted quantity exactly when those sum to zero.
   */
  lemma CountResets(l: Ledger, c: nat)
    requires Inv(l) && c < |l.counts|
    ensures var k := l.counts[c];
            var missed := OnHand(l.movements[k.seen..k.at], k.store, k.product);
            && k.seen <= k.at <= After(k) <= |l.movements|
            && OnHand(l.movements, k.store, k.product)
               == k.counted + missed + OnHand(l.movements[After(k)..], k.store, k.product)
            && (OnHand(l.movements[..After(k)], k.store, k.product) == k.counted <==> missed == 0)
  {
    hide OneUnit, OnePerSource, GoodRows, WholeTransfers, Announced, Recorded, TransfersCancel, Total;
    var ms, k := l.movements, l.counts[c];
    assert CountHolds(ms, c, k);
    TotalAfterCount(ms, c, k);
    TwoParts(ms, After(k), QuantityAt(k.store, k.product));
  }

  /** A transfer group is exactly two movements, and no ledger holds half of one. */
  lemma GroupIsAPair(l: Ledger, g: nat)
    requires Inv(l)
    ensures var members := set i | 0 <= i < |l.movements| && l.movements[i].group == Some(g);
            || members == {}
            || (members == {g, g + 1} && g + 1 < |l.movements| && Legs(l.movements[g], l.movements[g + 1], g))
  {
    WholeGroup(l.movements, g);
  }

  lemma LegIsWhole(ms: seq<Movement>, i: nat)
    requires WholeTransfers(ms) && i < |ms| && ms[i].group.Some?
    ensures var g := ms[i].group.value;
            && g + 1 < |ms| && i in {g, g + 1} && Legs(ms[g], ms[g + 1], g)
            && ms[g].group == ms[g + 1].group == Some(g)
  {
    assert LegHolds(ms, i);
  }

  lemma WholeGroup(ms: seq<Movement>, g: nat)
    requires WholeTransfers(ms)
    ensures var members := set i | 0 <= i < |ms| && ms[i].group == Some(g);
            || members == {}
            || (members == {g, g + 1} && g + 1 < |ms| && Legs(ms[g], ms[g + 1], g))
  {
    hide WholeTransfers, Legs;
    var members := set i | 0 <= i < |ms| && ms[i].group == Some(g);
    forall i | i in members
      ensures i in {g, g + 1} && g + 1 < |ms| && Legs(ms[g], ms[g + 1], g)
      ensures ms[g].group == ms[g + 1].group == Some(g)
    {
      LegIsWhole(ms, i);
    }
    if i :| i in members {
      assert g in members && g + 1 in members;
      assert members == {g, g + 1};
    }
  }

  function StoreStock(ms: seq<Movement>, stores: seq<StoreId>, p: ProductId): int {
    if |stores| == 0 then 0
    else StoreStock(ms, stores[..|stores| - 1], p) + OnHand(ms, stores[|stores| - 1], p)
  }

  function QuantityAmong(stores: seq<StoreId>, p: ProductId): Movement -> int {
    (m: Movement) => if m.product == Some(p) && m.store in stores then m.quantity else 0
  }

  lemma {:induction false} StoresAddUp(ms: seq<Movement>, stores: seq<StoreId>, p: ProductId)
    requires Distinct(stores)
    ensures StoreStock(ms, stores, p) == Total(ms, QuantityAmong(stores, p))
  {
    if |stores| == 0 {
      TotalZero(ms, QuantityAmong(stores, p));
    } else {
      var last := stores[|stores| - 1];
      StoresAddUp(ms, stores[..|stores| - 1], p);
      assert stores == stores[..|stores| - 1] + [last];
      SumOfTotals(ms, QuantityAmong(stores[..|stores| - 1], p), QuantityAt(last, p), QuantityAmong(stores, p));
    }
  }

  /** On-hand summed over all stores is the sum of the product's non-transfer movements. */
  lemma TenantStock(l: Ledger, stores: seq<StoreId>, p: ProductId)
    requires Inv(l) && Distinct(stores)
    requires forall i :: 0 <= i < |l.movements| && l.movements[i].product == Some(p) ==> l.movements[i].store in stores
    ensures StoreStock(l.movements, stores, p) == Total(l.movements, NonTransferOf(p))
  {
    hide OneUnit, OnePerSource, GoodRow, WholeTransfers, Corrections, Announced, Recorded, OnHand, StoreStock;
    StoresAddUp(l.movements, stores, p);
    SameTotal(l.movements, QuantityAmong(stores, p), QuantityOf(p));
  }

  /** What an accepted request does to the on-hand of every key. */
  function Effect(l: Ledger, q: Request, r: Reads, store: StoreId, p: ProductId): int {
    match q
    case Transfer(source, destination, quantity, _, item, _) =>
      if p != item then 0 else if store == source then -quantity else if store == destination then quantity else 0
    case Count(at, counted, _, item) =>
      if store == at && p == item then counted - OnHand(Seen(l.movements, r.second), at, item) else 0
    case _ => if store == q.store && q.product == Some(p) then q.quantity else 0
  }

  lemma NoTotal(f: Movement -> int)
    ensures Total([], f) == 0
  {}

  /** The rows of a valid request add up to its effect. */
  lemma RowsEffect(l: Ledger, q: Request, r: Reads, store: StoreId, p: ProductId)
    requires ValidRequest(q)
    ensures Total(NewRows(l, q, r), QuantityAt(store, p)) == Effect(l, q, r, store, p)
  {
    hide Total, Trim, TrimReason, OnHand;
    var f, rows := QuantityAt(store, p), NewRows(l, q, r);
    NoTotal(f);
    if |rows| >= 1 {
      TotalSnoc([], rows[0], f);
      assert [] + [rows[0]] == [rows[0]];
    }
    if |rows| == 2 {
      TotalSnoc([rows[0]], rows[1], f);
      assert [rows[0]] + [rows[1]] == rows;
    }
  }

  lemma EffectOnEveryKey(l: Ledger, q: Request, r: Reads, store: StoreId, p: ProductId)
    ensures OnHand(Step(l, q, r).movements, store, p)
         == OnHand(l.movements, store, p) + if Accepted(l, q, r) then Effect(l, q, r, store, p) else 0
  {
    hide Answer, Rows, Effect, Total, Derived, Trim, TrimReason;
    if Accepted(l, q, r) {
      AcceptedIsValid(l, q, r);
      TotalConcat(l.movements, NewRows(l, q, r), QuantityAt(store, p));
      RowsEffect(l, q, r, store, p);
    }
  }

  lemma AcceptedIsValid(l: Ledger, q: Request, r: Reads)
    requires Accepted(l, q, r)
    ensures ValidRequest(q)
  {}
}
