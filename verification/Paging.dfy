/**
 * Keyset pagination: pages of the rows below a cursor, newest first, each fetching one row
 * more than it shows to learn whether to hand out a next cursor.
 */
module Paging {
  import opened Basics

  /** The columns the two listings filter on. */
  datatype Body =
    | AuditBody(tenant: Option<nat>, action: string, actor: Option<nat>, store: Option<nat>)
    | OutboxBody(deadLettered: bool, processed: bool, eventType: string, tenant: Option<nat>)

  /** `micros` is the row's timestamp, in microseconds; `id` its primary key. */
  datatype Row = Row(micros: int, id: nat, body: Body)

  datatype Cursor = Cursor(micros: int, id: nat)

  /** Precision at which a cursor carries the timestamp. */
  datatype Precision = Milli | Micro

  function Stamp(p: Precision, micros: int): int { if p.Milli? then micros - micros % 1000 else micros }

  function CursorAt(p: Precision, r: Row): Cursor { Cursor(Stamp(p, r.micros), r.id) }

  /** `(micros, id) < (cursor.micros, cursor.id)` as a row-value comparison. */
  predicate Below(r: Row, c: Cursor) {
    r.micros < c.micros || (r.micros == c.micros && r.id < c.id)
  }

  /** `a` is listed after `b`. */
  predicate Older(a: Row, b: Row) { Below(a, Cursor(b.micros, b.id)) }

  predicate Descending(s: seq<Row>) { forall i, j :: 0 <= i < j < |s| ==> Older(s[j], s[i]) }

  predicate KeysUnique(table: seq<Row>) {
    forall i, j :: 0 <= i < j < |table| ==> table[i].id != table[j].id
  }

  predicate Wanted(keep: Row -> bool, cursor: Option<Cursor>, r: Row) {
    keep(r) && (cursor.None? || Below(r, cursor.value))
  }

  // ---- WHERE, ORDER BY ------------------------------------------------------------------------

  function Insert(s: seq<Row>, r: Row): seq<Row> {
    if |s| == 0 || Older(s[|s| - 1], r) == false then s + [r]
    else Insert(s[..|s| - 1], r) + [s[|s| - 1]]
  }

  function Matching(table: seq<Row>, keep: Row -> bool, cursor: Option<Cursor>): seq<Row> {
    if |table| == 0 then []
    else
      var rest, last := Matching(table[..|table| - 1], keep, cursor), table[|table| - 1];
      if Wanted(keep, cursor, last) then Insert(rest, last) else rest
  }

  lemma {:induction false} InsertKeepsOrder(s: seq<Row>, r: Row)
    requires Descending(s) && forall i :: 0 <= i < |s| ==> s[i].id != r.id
    ensures Descending(Insert(s, r)) && |Insert(s, r)| == |s| + 1
    ensures forall x :: x in Insert(s, r) <==> x in s || x == r
  {
    if |s| > 0 && Older(s[|s| - 1], r) {
      var n := |s| - 1;
      InsertKeepsOrder(s[..n], r);
      var t := Insert(s[..n], r);
      forall i | 0 <= i < |t| ensures Older(s[n], t[i]) {
        assert t[i] in s[..n] || t[i] == r;
      }
      assert s == s[..n] + [s[n]];
    } else {
      assert Insert(s, r) == s + [r];
      forall i | 0 <= i < |s| ensures Older(r, s[i]) {
        assert i < |s| - 1 ==> Older(s[|s| - 1], s[i]);
      }
    }
  }

  /** The matching rows, newest first, and no others. */
  lemma {:induction false} MatchingIs(table: seq<Row>, keep: Row -> bool, cursor: Option<Cursor>)
    requires KeysUnique(table)
    ensures Descending(Matching(table, keep, cursor))
    ensures forall x :: x in Matching(table, keep, cursor) <==> x in table && Wanted(keep, cursor, x)
  {
    if |table| > 0 {
      var n := |table| - 1;
      MatchingIs(table[..n], keep, cursor);
      var rest := Matching(table[..n], keep, cursor);
      forall i | 0 <= i < |rest| ensures rest[i].id != table[n].id {
        assert rest[i] in rest && rest[i] in table[..n];
      }
      InsertKeepsOrder(rest, table[n]);
      assert table == table[..n] + [table[n]];
    }
  }

  /** The last of a descending list is its only member that is older than all others. */
  lemma SameLast(a: seq<Row>, b: seq<Row>)
    requires Descending(a) && Descending(b) && (forall x :: x in a <==> x in b) && |a| > 0 && |b| > 0
    ensures a[|a| - 1] == b[|b| - 1]
  {
    assert b[|b| - 1] in a && a[|a| - 1] in b;
    var i :| 0 <= i < |a| && a[i] == b[|b| - 1];
    var j :| 0 <= j < |b| && b[j] == a[|a| - 1];
    assert i < |a| - 1 ==> Older(a[|a| - 1], a[i]);
    assert j < |b| - 1 ==> Older(b[|b| - 1], b[j]);
  }

  lemma LastIsOnce(a: seq<Row>, x: Row)
    requires Descending(a) && |a| > 0
    ensures x in a[..|a| - 1] <==> x in a && x != a[|a| - 1]
  {
    var m := |a| - 1;
    assert a == a[..m] + [a[m]];
    forall i | 0 <= i < m ensures a[i] != a[m] { assert Older(a[m], a[i]); }
  }

  /** A descending list is determined by its members. */
  lemma {:induction false} SameMembersSameList(a: seq<Row>, b: seq<Row>)
    requires Descending(a) && Descending(b) && forall x :: x in a <==> x in b
    ensures a == b
  {
    if |a| > 0 { assert a[0] in b; }
    if |b| > 0 { assert b[0] in a; }
    if |a| > 0 {
      hide Older;
      SameLast(a, b);
      var m, n := |a| - 1, |b| - 1;
      forall x ensures x in a[..m] <==> x in b[..n] {
        LastIsOnce(a, x);
        LastIsOnce(b, x);
      }
      SameMembersSameList(a[..m], b[..n]);
      assert a == a[..m] + [a[m]] && b == b[..n] + [b[n]];
    }
  }

  // ---- one page -----------------------------------------------------------------------------------

  datatype Page = Page(items: seq<Row>, next: Option<Cursor>)

  function Take(s: seq<Row>, n: nat): seq<Row> { if n <= |s| then s[..n] else s }

  /** Trim what was fetched to the limit, and hand out a cursor if there was more. */
  function PageOf(p: Precision, rows: seq<Row>, limit: nat): Page {
    var hasMore := |rows| > limit;
    var kept := if hasMore then rows[..limit] else rows;
    Page(kept, if hasMore && |kept| > 0 then Some(CursorAt(p, kept[|kept| - 1])) else None)
  }

  /** One row more than the limit is fetched. */
  function List(p: Precision, table: seq<Row>, keep: Row -> bool, cursor: Option<Cursor>, limit: nat): Page {
    PageOf(p, Take(Matching(table, keep, cursor), limit + 1), limit)
  }

  /**
   * A page shows the newest matching rows, as many as the limit; it hands out a cursor exactly
   * when there are more, made from the last row shown.
   */
  lemma PageIs(p: Precision, table: seq<Row>, keep: Row -> bool, cursor: Option<Cursor>, limit: nat)
    ensures var page, all := List(p, table, keep, cursor, limit), Matching(table, keep, cursor);
            && page.items <= all && |page.items| == Min(|all|, limit)
            && (page.next.Some? <==> 0 < limit < |all|)
            && (page.next.Some? ==>
                  var last := all[limit - 1];
                  && page.next.value.id == last.id
                  && page.next.value.micros == (if p.Milli? then last.micros / 1000 * 1000 else last.micros))
  {
    hide Matching;
  }

  // ---- following next_cursor to the end --------------------------------------------------------------

  /** The next cursor leaves out at least the rows just shown. */
  lemma NextCursorAdvances(p: Precision, table: seq<Row>, keep: Row -> bool, cursor: Option<Cursor>, limit: nat)
    returns (k: nat)
    requires KeysUnique(table) && limit > 0 && List(p, table, keep, cursor, limit).next.Some?
    ensures Suffix(p, Matching(table, keep, cursor),
                   Matching(table, keep, List(p, table, keep, cursor, limit).next), limit, k)
  {
    hide Matching, Descending, KeysUnique;
    MatchingIs(table, keep, cursor);
    var all, c := Matching(table, keep, cursor), List(p, table, keep, cursor, limit).next;
    var e := all[limit - 1];
    assert c == Some(CursorAt(p, e)) && e in all && Wanted(keep, cursor, e);
    k := FirstBelow(all, c.value, limit, e, p);
    MatchingIs(table, keep, c);
    var next := Matching(table, keep, c);
    forall x ensures x in next <==> x in all[k..] {
      if x in all[k..] { assert x in all && Below(x, c.value); }
      if x in next {
        assert x in table && keep(x) && Below(x, c.value);
        BelowStampIsOlder(p, x, e);
        WantedBelow(keep, cursor, e, x);
        assert x in all;
        NotAbove(all, k, c.value, x);
      }
    }
    TailDescends(all, k);
    SameMembersSameList(next, all[k..]);
  }

  /**
   * `next` is `all` from `k` on; the rows from `limit` to `k` are older than the last row
   * shown and yet not below the cursor made from it.
   */
  ghost predicate Suffix(p: Precision, all: seq<Row>, next: seq<Row>, limit: nat, k: nat)
    requires limit > 0
  {
    && limit <= k <= |all| && next == all[k..]
    && (forall i :: limit <= i < k ==> Hidden(p, all[i], all[limit - 1]))
    && (forall i :: k <= i < |all| ==> !Hidden(p, all[i], all[limit - 1]))
  }

  /** A page that ended at `e` hides `r` from the pages after it. */
  predicate Hidden(p: Precision, r: Row, e: Row) { Older(r, e) && !Below(r, CursorAt(p, e)) }

  lemma BelowStampIsOlder(p: Precision, r: Row, e: Row)
    requires Below(r, CursorAt(p, e))
    ensures Older(r, e)
  {}

  lemma WantedBelow(keep: Row -> bool, cursor: Option<Cursor>, e: Row, x: Row)
    requires Wanted(keep, cursor, e) && keep(x) && Older(x, e)
    ensures Wanted(keep, cursor, x)
  {}

  lemma TailDescends(all: seq<Row>, k: nat)
    requires Descending(all) && k <= |all|
    ensures Descending(all[k..])
  {}

  lemma NotAbove(all: seq<Row>, k: nat, c: Cursor, x: Row)
    requires k <= |all| && x in all && Below(x, c) && forall i :: 0 <= i < k ==> !Below(all[i], c)
    ensures x in all[k..]
  {
    var i :| 0 <= i < |all| && all[i] == x;
    assert all[k..][i - k] == x;
  }

  lemma FirstBelow(all: seq<Row>, c: Cursor, limit: nat, e: Row, p: Precision) returns (k: nat)
    requires 0 < limit <= |all| && Descending(all) && e == all[limit - 1] && c == CursorAt(p, e)
    ensures limit <= k <= |all|
    ensures forall i :: 0 <= i < k ==> !Below(all[i], c)
    ensures forall i :: k <= i < |all| ==> Below(all[i], c)
    ensures forall i :: limit <= i < |all| ==> Older(all[i], e)
  {
    k := limit;
    forall i | 0 <= i < limit ensures !Below(all[i], c) {
      assert i < limit - 1 ==> Older(e, all[i]);
    }
    while k < |all| && !Below(all[k], c)
      invariant limit <= k <= |all|
      invariant forall i :: 0 <= i < k ==> !Below(all[i], c)
    {
      k := k + 1;
    }
    assert forall i :: k < i < |all| ==> Older(all[i], all[k]);
  }

  lemma NextIsShorter(p: Precision, table: seq<Row>, keep: Row -> bool, cursor: Option<Cursor>, limit: nat)
    requires KeysUnique(table) && limit > 0 && List(p, table, keep, cursor, limit).next.Some?
    ensures |Matching(table, keep, List(p, table, keep, cursor, limit).next)| < |Matching(table, keep, cursor)|
  {
    hide Matching, List, Hidden;
    var _ := NextCursorAdvances(p, table, keep, cursor, limit);
  }

  /** Every page after `cursor`, one after the other. */
  function Walk(p: Precision, table: seq<Row>, keep: Row -> bool, cursor: Option<Cursor>, limit: nat): seq<Row>
    requires KeysUnique(table) && limit > 0
    decreases |Matching(table, keep, cursor)|
  {
    var page := List(p, table, keep, cursor, limit);
    if page.next.None? then page.items
    else
      NextIsShorter(p, table, keep, cursor, limit);
      page.items + Walk(p, table, keep, page.next, limit)
  }

  /** The rows those pages end at. */
  function Ends(p: Precision, table: seq<Row>, keep: Row -> bool, cursor: Option<Cursor>, limit: nat): seq<Row>
    requires KeysUnique(table) && limit > 0
    decreases |Matching(table, keep, cursor)|
  {
    var page := List(p, table, keep, cursor, limit);
    if page.next.None? then []
    else
      NextIsShorter(p, table, keep, cursor, limit);
      [page.items[|page.items| - 1]] + Ends(p, table, keep, page.next, limit)
  }

  /** Some page end hides the row. */
  predicate Skipped(p: Precision, ends: seq<Row>, r: Row) {
    exists i :: 0 <= i < |ends| && Hidden(p, r, ends[i])
  }

  /**
   * Exactly what a walk shows: strictly newest first, hence without repetition, and every
   * matching row except those some page end hides.
   */
  lemma {:induction false} WalkShows(p: Precision, table: seq<Row>, keep: Row -> bool, cursor: Option<Cursor>,
                                        limit: nat)
    requires KeysUnique(table) && limit > 0
    ensures var all := Matching(table, keep, cursor);
            var walk, ends := Walk(p, table, keep, cursor, limit), Ends(p, table, keep, cursor, limit);
            && Descending(walk)
            && (forall r :: r in walk <==> r in all && !Skipped(p, ends, r))
            && (forall e :: e in ends ==> e in walk)
    decreases |Matching(table, keep, cursor)|
  {
    hide Matching, KeysUnique, Descending, Hidden, Skipped, Walk, Ends;
    MatchingIs(table, keep, cursor);
    Unfold(p, table, keep, cursor, limit);
    var all, page := Matching(table, keep, cursor), List(p, table, keep, cursor, limit);
    if page.next.None? {
      forall r ensures !Skipped(p, [], r) { NothingSkipped(p, r); }
    } else {
      NextIsShorter(p, table, keep, cursor, limit);
      var k := NextCursorAdvances(p, table, keep, cursor, limit);
      var next := Matching(table, keep, page.next);
      WalkShows(p, table, keep, page.next, limit);
      JoinPages(p, all, limit, k, Walk(p, table, keep, page.next, limit), Ends(p, table, keep, page.next, limit));
    }
  }

  lemma Unfold(p: Precision, table: seq<Row>, keep: Row -> bool, cursor: Option<Cursor>, limit: nat)
    requires KeysUnique(table) && limit > 0
    ensures var all, page := Matching(table, keep, cursor), List(p, table, keep, cursor, limit);
            if page.next.None? then
              && Walk(p, table, keep, cursor, limit) == all
              && Ends(p, table, keep, cursor, limit) == []
            else
              && limit < |all| && page.items == all[..limit] && page.next == Some(CursorAt(p, all[limit - 1]))
              && Walk(p, table, keep, cursor, limit) == all[..limit] + Walk(p, table, keep, page.next, limit)
              && Ends(p, table, keep, cursor, limit) == [all[limit - 1]] + Ends(p, table, keep, page.next, limit)
  {
    hide Matching, KeysUnique;
  }

  lemma NothingSkipped(p: Precision, r: Row)
    ensures !Skipped(p, [], r)
  {}

  /** One page in front of a walk over the rest. */
  lemma JoinPages(p: Precision, all: seq<Row>, limit: nat, k: nat, walk: seq<Row>, ends: seq<Row>)
    requires Descending(all) && limit > 0 && Suffix(p, all, if k <= |all| then all[k..] else [], limit, k)
    requires Descending(walk)
    requires forall r :: r in walk <==> r in all[k..] && !Skipped(p, ends, r)
    requires forall e :: e in ends ==> e in walk
    ensures Descending(all[..limit] + walk)
    ensures forall r :: r in all[..limit] + walk <==> r in all && !Skipped(p, [all[limit - 1]] + ends, r)
    ensures forall e :: e in [all[limit - 1]] + ends ==> e in all[..limit] + walk
  {
    hide Hidden, Skipped;
    var e, more, shown := all[limit - 1], [all[limit - 1]] + ends, all[..limit] + walk;
    assert forall r :: r in walk ==> r in all[k..];
    forall i, j | 0 <= i < limit && 0 <= j < |walk| ensures Older(walk[j], all[i]) {
      assert walk[j] in all[k..];
    }
    assert Descending(shown);
    forall r ensures Skipped(p, more, r) <==> Hidden(p, r, e) || Skipped(p, ends, r) { SkippedByFirst(p, e, ends, r); }
    forall r ensures r in shown <==> r in all && !Skipped(p, more, r) {
      if r in all { Place(p, all, limit, k, walk, ends, r); }
    }
  }

  lemma SkippedByFirst(p: Precision, e: Row, ends: seq<Row>, r: Row)
    ensures Skipped(p, [e] + ends, r) <==> Hidden(p, r, e) || Skipped(p, ends, r)
  {
    hide Hidden;
    var more := [e] + ends;
    assert more[0] == e;
    if Skipped(p, ends, r) {
      var i :| 0 <= i < |ends| && Hidden(p, r, ends[i]);
      assert more[i + 1] == ends[i];
    }
    if Skipped(p, more, r) {
      var i :| 0 <= i < |more| && Hidden(p, r, more[i]);
      assert i > 0 ==> more[i] == ends[i - 1];
    }
  }

  /** Where a row of `all` ends up: on the page, hidden by it, or left to the walk that follows. */
  lemma Place(p: Precision, all: seq<Row>, limit: nat, k: nat, walk: seq<Row>, ends: seq<Row>, r: Row)
    requires Descending(all) && limit > 0 && Suffix(p, all, if k <= |all| then all[k..] else [], limit, k) && r in all
    requires forall r :: r in walk <==> r in all[k..] && !Skipped(p, ends, r)
    requires forall e :: e in ends ==> e in walk
    ensures r in all[..limit] + walk <==> !(Hidden(p, r, all[limit - 1]) || Skipped(p, ends, r))
  {
    var i :| 0 <= i < |all| && all[i] == r;
    if i < limit {
      assert r in all[..limit];
      forall j | 0 <= j < |ends| ensures !Hidden(p, r, ends[j]) {
        assert ends[j] in all[k..];
      }
    } else if i < k {
      assert Hidden(p, r, all[limit - 1]);
      assert r !in all[..limit] && r !in all[k..];
    } else {
      assert all[k..][i - k] == r;
      assert r !in all[..limit];
    }
  }

  /** With the timestamp carried in full, the walk is the whole matching list, once each. */
  lemma FullPrecisionWalk(table: seq<Row>, keep: Row -> bool, cursor: Option<Cursor>, limit: nat)
    requires KeysUnique(table) && limit > 0
    ensures Walk(Micro, table, keep, cursor, limit) == Matching(table, keep, cursor)
  {
    hide Walk, Ends, Matching, Descending;
    WalkShows(Micro, table, keep, cursor, limit);
    MatchingIs(table, keep, cursor);
    SameMembersSameList(Walk(Micro, table, keep, cursor, limit), Matching(table, keep, cursor));
  }

  /** With a millisecond cursor, a matching row is missing only if a page ended inside its millisecond. */
  lemma MissingSharesMillisecond(table: seq<Row>, keep: Row -> bool, cursor: Option<Cursor>, limit: nat, r: Row)
    requires KeysUnique(table) && limit > 0
    requires r in Matching(table, keep, cursor) && r !in Walk(Milli, table, keep, cursor, limit)
    ensures exists e :: e in Walk(Milli, table, keep, cursor, limit) && Older(r, e) &&
                        Stamp(Milli, r.micros) == Stamp(Milli, e.micros)
  {
    hide Walk, Ends, Matching, Descending, KeysUnique, Hidden, Older, Stamp;
    WalkShows(Milli, table, keep, cursor, limit);
    var ends := Ends(Milli, table, keep, cursor, limit);
    var i :| 0 <= i < |ends| && Hidden(Milli, r, ends[i]);
    assert ends[i] in ends;
    HiddenSharesMillisecond(r, ends[i]);
  }

  lemma HiddenSharesMillisecond(r: Row, e: Row)
    requires Hidden(Milli, r, e)
    ensures Older(r, e) && Stamp(Milli, r.micros) == Stamp(Milli, e.micros)
  {}

  /** Neighbours that a page boundary between them would lose. */
  predicate Fragile(p: Precision, all: seq<Row>) {
    exists i :: 0 < i < |all| && Hidden(p, all[i], all[i - 1])
  }

  ghost predicate CompleteAtEverySize(p: Precision, table: seq<Row>, keep: Row -> bool, cursor: Option<Cursor>)
    requires KeysUnique(table)
  {
    forall limit: nat :: limit > 0 ==> Walk(p, table, keep, cursor, limit) == Matching(table, keep, cursor)
  }

  /**
   * The walk is complete at every page size exactly when no two neighbouring matching rows
   * share a cursor stamp in the wrong order.
   */
  lemma CompleteIff(p: Precision, table: seq<Row>, keep: Row -> bool, cursor: Option<Cursor>)
    requires KeysUnique(table)
    ensures CompleteAtEverySize(p, table, keep, cursor) <==> !Fragile(p, Matching(table, keep, cursor))
  {
    hide Walk, Ends, Matching, Hidden;
    var all := Matching(table, keep, cursor);
    if i :| 0 < i < |all| && Hidden(p, all[i], all[i - 1]) {
      LosesNext(p, table, keep, cursor, i);
    } else {
      forall limit: nat | limit > 0 ensures Walk(p, table, keep, cursor, limit) == all {
        SturdyWalk(p, table, keep, cursor, limit);
      }
    }
  }

  lemma LosesNext(p: Precision, table: seq<Row>, keep: Row -> bool, cursor: Option<Cursor>, i: nat)
    requires KeysUnique(table) && 0 < i < |Matching(table, keep, cursor)|
    requires Hidden(p, Matching(table, keep, cursor)[i], Matching(table, keep, cursor)[i - 1])
    ensures Walk(p, table, keep, cursor, i) != Matching(table, keep, cursor)
  {
    hide Walk, Matching, Hidden;
    var all := Matching(table, keep, cursor);
    WalkShows(p, table, keep, cursor, i);
    var ends := Ends(p, table, keep, cursor, i);
    assert ends[0] == all[i - 1];
    assert Skipped(p, ends, all[i]);
    assert all[i] in all;
  }

  /** A page boundary in a list without fragile neighbours hides nothing, and leaves such a list. */
  lemma SturdyRest(p: Precision, all: seq<Row>, next: seq<Row>, limit: nat, k: nat)
    requires limit > 0 && !Fragile(p, all) && Suffix(p, all, next, limit, k)
    ensures k == limit <= |all| && next == all[limit..] && !Fragile(p, next)
  {
    hide Hidden;
    assert limit < |all| ==> !Hidden(p, all[limit], all[limit - 1]);
    forall i | 0 < i < |next| ensures !Hidden(p, next[i], next[i - 1]) {
      assert next[i] == all[k + i] && next[i - 1] == all[k + i - 1];
    }
  }

  lemma {:induction false} SturdyWalk(p: Precision, table: seq<Row>, keep: Row -> bool, cursor: Option<Cursor>,
                                         limit: nat)
    requires KeysUnique(table) && limit > 0 && !Fragile(p, Matching(table, keep, cursor))
    ensures Walk(p, table, keep, cursor, limit) == Matching(table, keep, cursor)
    decreases |Matching(table, keep, cursor)|
  {
    hide Matching, KeysUnique, Hidden, Walk, Fragile, Suffix;
    Unfold(p, table, keep, cursor, limit);
    var all, page := Matching(table, keep, cursor), List(p, table, keep, cursor, limit);
    if page.next.Some? {
      NextIsShorter(p, table, keep, cursor, limit);
      var k := NextCursorAdvances(p, table, keep, cursor, limit);
      SturdyRest(p, all, Matching(table, keep, page.next), limit, k);
      SturdyWalk(p, table, keep, page.next, limit);
    }
  }
}
