/** Redelivered backfill jobs: any order and any repetition leave the same stock. */
module InventoryBackfill {
  import opened Basics
  import opened Text
  import opened Inventory
  import opened InventoryReads
  import opened InventoryRuns

  /** The row a backfill job asks for, if the table takes it; other jobs never insert anything. */
  function JobRow(q: Request): Option<Movement>
    requires q.Backfill?
  {
    var row := Rows(q, 0, 0, 0)[0];
    if ValidRequest(q) && (row.reason.Some? ==> |row.reason.value| <= 500) then Some(row) else None
  }

  /** Rows with one provenance pair are one row, and rows of one key agree on the unit. */
  predicate Compatible(m: Movement, n: Movement) {
    && (m.source.Some? && m.source == n.source ==> m == n)
    && (SameKey(m, n) ==> m.unit == n.unit)
  }

  predicate Jobs(acts: seq<Act>) { forall a :: 0 <= a < |acts| ==> acts[a].request.Backfill? }

  /** Some job asks for `m`. */
  predicate Asked(acts: seq<Act>, m: Movement)
    requires Jobs(acts)
  {
    exists a :: 0 <= a < |acts| && JobRow(acts[a].request) == Some(m)
  }

  /** The jobs agree with each other and with what the ledger already holds. */
  ghost predicate Agree(ms: seq<Movement>, acts: seq<Act>)
    requires Jobs(acts)
  {
    forall m, n :: (m in ms || Asked(acts, m)) && Asked(acts, n) ==> Compatible(m, n)
  }

  /** A backfill the ledger agrees with: appended if its pair is new, else answered with its own row. */
  lemma DeliverOne(l: Ledger, q: Request, r: Reads, row: Movement)
    requires q.Backfill? && JobRow(q) == Some(row)
    requires forall i :: 0 <= i < |l.movements| ==> Compatible(l.movements[i], row)
    ensures row in l.movements ==> Answer(l, q, r).Redelivered? && Step(l, q, r) == l
    ensures row !in l.movements ==>
      Answer(l, q, r).Moved? && Step(l, q, r).movements == l.movements + [row]
  {
    hide Trim, TrimReason, UnitAgrees, Established, ValidRequest;
    assert Rows(q, |l.movements|, |l.counts|, 0) == [row] && row.source.Some?;
    OnlyReason(l.movements, row);
    if !ChecksPass(l, q, r) { DisagreementClashes(l.movements, r.first, row); }
  }

  lemma OnlyReason(ms: seq<Movement>, row: Movement)
    requires forall i :: 0 <= i < |ms| ==> Compatible(ms[i], row)
    ensures Refused(ms, row) <==> row.reason.Some? && |row.reason.value| > 500
    ensures AnyRefused(ms, [row]) <==> Refused(ms, row)
  {
    assert [row][0] == row;
  }

  lemma DeliverNothing(l: Ledger, q: Request, r: Reads)
    requires q.Backfill? && JobRow(q).None?
    ensures Step(l, q, r) == l
  {
    hide Trim, TrimReason, UnitAgrees, Established, ValidRequest;
    var rows := Rows(q, |l.movements|, |l.counts|, 0);
    assert ValidRequest(q) ==> Refused(l.movements, rows[0]);
  }

  lemma Asks(acts: seq<Act>, m: Movement)
    requires |acts| > 0 && Jobs(acts)
    ensures Asked(acts, m) <==> Asked(acts[..|acts| - 1], m) || JobRow(acts[|acts| - 1].request) == Some(m)
  {
    hide JobRow;
    var rest := acts[..|acts| - 1];
    if Asked(rest, m) {
      var a :| 0 <= a < |rest| && JobRow(rest[a].request) == Some(m);
      assert acts[a] == rest[a];
    }
    if Asked(acts, m) && JobRow(acts[|acts| - 1].request) != Some(m) {
      var a :| 0 <= a < |acts| && JobRow(acts[a].request) == Some(m);
      assert rest[a] == acts[a];
    }
  }

  /** After any deliveries the ledger holds what it held, and exactly the rows asked for. */
  lemma {:induction false} Delivered(l: Ledger, acts: seq<Act>)
    requires Jobs(acts) && Agree(l.movements, acts)
    ensures l.movements <= Run(l, acts).movements
    ensures forall m :: m in Run(l, acts).movements <==> m in l.movements || Asked(acts, m)
    ensures forall i :: |l.movements| <= i < |Run(l, acts).movements| ==> Asked(acts, Run(l, acts).movements[i])
  {
    hide Step, JobRow, Compatible, Asked;
    if |acts| > 0 {
      var rest, last := acts[..|acts| - 1], acts[|acts| - 1];
      forall m ensures Asked(acts, m) <==> Asked(rest, m) || JobRow(last.request) == Some(m) { Asks(acts, m); }
      Delivered(l, rest);
      var before := Run(l, rest);
      if JobRow(last.request).Some? {
        DeliverOne(before, last.request, last.reads', JobRow(last.request).value);
      } else {
        DeliverNothing(before, last.request, last.reads');
      }
    } else {
      forall m ensures !Asked(acts, m) { NobodyAsks(m); }
    }
  }

  lemma NobodyAsks(m: Movement)
    ensures !Asked([], m)
  {}

  /** No delivery that the table can take is ever refused, whenever it comes and however often. */
  lemma NoDeliveryRefused(l: Ledger, acts: seq<Act>, k: nat)
    requires Jobs(acts) && Agree(l.movements, acts) && k < |acts| && JobRow(acts[k].request).Some?
    ensures var reply := Answer(Run(l, acts[..k]), acts[k].request, acts[k].reads');
            reply.Moved? || reply.Redelivered?
  {
    hide JobRow, Compatible, Answer;
    var row := JobRow(acts[k].request).value;
    assert Asked(acts, row);
    forall m | Asked(acts[..k], m) ensures Asked(acts, m) {
      var a :| 0 <= a < k && JobRow(acts[..k][a].request) == Some(m);
      assert acts[a] == acts[..k][a];
    }
    Delivered(l, acts[..k]);
    DeliverOne(Run(l, acts[..k]), acts[k].request, acts[k].reads', row);
  }

  /** Two lists without repetition and with the same members have the same total. */
  lemma {:induction false} SameMembersSameTotal<T>(a: seq<T>, b: seq<T>, f: T -> int)
    requires Distinct(a) && Distinct(b) && forall x :: x in a <==> x in b
    ensures Total(a, f) == Total(b, f)
  {
    assert forall i :: 0 <= i < |b| ==> b[i] in a;
    if |a| > 0 {
      var n := |a| - 1;
      assert a[n] in b;
      var j :| 0 <= j < |b| && b[j] == a[n];
      RemoveOne(a, b, j);
      TotalWithout(b, j, f);
      SameMembersSameTotal(a[..n], b[..j] + b[j + 1..], f);
    }
  }

  lemma TotalWithout<T>(b: seq<T>, j: nat, f: T -> int)
    requires j < |b|
    ensures Total(b, f) == Total(b[..j] + b[j + 1..], f) + f(b[j])
  {
    hide Total;
    TwoParts(b, j + 1, f);
    TotalSnoc(b[..j], b[j], f);
    TotalConcat(b[..j], b[j + 1..], f);
    assert b[..j + 1] == b[..j] + [b[j]];
  }

  lemma RemoveOne<T>(a: seq<T>, b: seq<T>, j: nat)
    requires |a| > 0 && Distinct(a) && Distinct(b) && (forall x :: x in a <==> x in b)
    requires j < |b| && b[j] == a[|a| - 1]
    ensures var c := b[..j] + b[j + 1..];
            Distinct(c) && forall x :: x in a[..|a| - 1] <==> x in c
  {
    var c, n := b[..j] + b[j + 1..], |a| - 1;
    forall y ensures y in a[..n] <==> y in c {
      if y in a[..n] {
        assert y in b && y != a[n];
        var k :| 0 <= k < |b| && b[k] == y;
        assert c[if k < j then k else k - 1] == y;
      }
      if y in c {
        var k :| 0 <= k < |c| && c[k] == y;
        assert b[if k < j then k else k + 1] == y && y != a[n];
        assert y in a;
      }
    }
  }

  /** What a list of deliveries adds. */
  function Added(l: Ledger, acts: seq<Act>): seq<Movement> {
    var after := Run(l, acts).movements;
    if |l.movements| <= |after| then after[|l.movements|..] else []
  }

  /** The added rows are the asked-for rows that were not there, each once. */
  lemma AddedOnce(l: Ledger, acts: seq<Act>)
    requires Inv(l) && Jobs(acts) && Agree(l.movements, acts)
    ensures Run(l, acts).movements == l.movements + Added(l, acts)
    ensures Distinct(Added(l, acts))
    ensures forall m :: m in Added(l, acts) <==> m !in l.movements && Asked(acts, m)
  {
    hide JobRow, Asked, Compatible, Step, OneUnit, GoodRow, WholeTransfers, Corrections, Announced, Recorded,
      TransfersCancel;
    Delivered(l, acts);
    RunKeeps(l, acts);
    var after, added := Run(l, acts).movements, Added(l, acts);
    assert after == l.movements + added;
    forall m | m in added ensures m !in l.movements && Asked(acts, m) {
      var i :| 0 <= i < |added| && added[i] == m;
      NewlyAdded(l, acts, |l.movements| + i);
    }
    forall m | m !in l.movements && Asked(acts, m) ensures m in added { assert m in after; }
    forall i, j | 0 <= i < j < |added| ensures added[i] != added[j] {
      assert Asked(acts, after[|l.movements| + i]);
      AskedHasSource(acts, added[i]);
      assert after[|l.movements| + i].source != after[|l.movements| + j].source;
    }
  }

  lemma AskedHasSource(acts: seq<Act>, m: Movement)
    requires Jobs(acts) && Asked(acts, m)
    ensures m.source.Some?
  {}

  /** A movement past the old end was asked for, and was not there before. */
  lemma NewlyAdded(l: Ledger, acts: seq<Act>, i: nat)
    requires Jobs(acts) && l.movements <= Run(l, acts).movements
    requires |l.movements| <= i < |Run(l, acts).movements|
    requires OnePerSource(Run(l, acts).movements)
    requires Asked(acts, Run(l, acts).movements[i])
    ensures Run(l, acts).movements[i] !in l.movements
  {
    hide Asked, Step;
    var after := Run(l, acts).movements;
    var m := after[i];
    AskedHasSource(acts, m);
    forall j | 0 <= j < |l.movements| ensures l.movements[j] != m {
      assert l.movements[j] == after[j] && after[i].source != after[j].source;
    }
  }

  /**
   * Any reordering and any repetition of agreeing jobs, with reads of any staleness, gives
   * every key the same on-hand, and each job's provenance pair exactly one movement.
   */
  lemma ReorderAndRepeat(l: Ledger, xs: seq<Act>, ys: seq<Act>, store: StoreId, product: ProductId)
    requires Inv(l)
    requires Jobs(xs) && Jobs(ys) && Agree(l.movements, xs)
    requires forall m :: Asked(xs, m) <==> Asked(ys, m)
    ensures OnHand(Run(l, xs).movements, store, product) == OnHand(Run(l, ys).movements, store, product)
    ensures |Run(l, xs).movements| == |Run(l, ys).movements|
    ensures OnePerSource(Run(l, xs).movements)
    ensures forall m :: Asked(xs, m) ==> m in Run(l, xs).movements
  {
    hide Inv, Asked, Compatible, Step, OnHand, Added, OnePerSource;
    AddedOnce(l, xs);
    AddedOnce(l, ys);
    SameStock(l.movements, Added(l, xs), Added(l, ys), store, product);
    RunKeeps(l, xs);
    InvIsOnePerSource(Run(l, xs));
    Delivered(l, xs);
  }

  lemma InvIsOnePerSource(l: Ledger)
    requires Inv(l)
    ensures OnePerSource(l.movements)
  {}

  lemma SameStock(base: seq<Movement>, a: seq<Movement>, b: seq<Movement>, store: StoreId, product: ProductId)
    requires Distinct(a) && Distinct(b) && forall m :: m in a <==> m in b
    ensures OnHand(base + a, store, product) == OnHand(base + b, store, product)
    ensures |base + a| == |base + b|
  {
    var f := QuantityAt(store, product);
    TotalConcat(base, a, f);
    TotalConcat(base, b, f);
    SameMembersSameTotal(a, b, f);
    SameMembersSameTotal(a, b, One);
    TotalOnes(a);
    TotalOnes(b);
  }

  function One(m: Movement): int { 1 }

  lemma {:induction false} TotalOnes(s: seq<Movement>)
    ensures Total(s, One) == |s|
  {
    if |s| > 0 { TotalOnes(s[..|s| - 1]); }
  }
}
