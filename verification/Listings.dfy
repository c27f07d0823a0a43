/** The `|` framing of list cursors and the two text formats it carries. */
module CursorCodec {
  import opened Basics
  import opened Paging
  import opened Text

  function Join(left: string, right: string): string { left + "|" + right }

  /** Split at the first `|`, refusing an empty half. */
  function Split(payload: string): Option<(string, string)> {
    if |payload| == 0 then None
    else
      var sep := Find(payload, '|', 0);
      if sep == |payload| || sep == 0 || sep == |payload| - 1 then None
      else Some((payload[..sep], payload[sep + 1..]))
  }

  /** Splitting inverts joining, on exactly the payloads that joining produces. */
  lemma SplitIff(payload: string, left: string, right: string)
    ensures Split(payload) == Some((left, right)) <==>
      payload == Join(left, right) && left != "" && right != "" && '|' !in left
  {
    var sep := Find(payload, '|', 0);
    if payload == Join(left, right) && left != "" && right != "" && '|' !in left {
      assert payload[|left|] == '|';
      assert forall i :: 0 <= i < |left| ==> payload[i] == left[i];
      assert sep == |left|;
      assert payload[..sep] == left && payload[sep + 1..] == right;
    }
    if Split(payload) == Some((left, right)) {
      assert payload == payload[..sep] + [payload[sep]] + payload[sep + 1..];
    }
  }

  predicate Hex(c: char) { IsDigit(c) || 'a' <= c <= 'f' || 'A' <= c <= 'F' }

  /** `mask` says which character each position takes: `d` a digit, `h` a hex digit, else itself. */
  predicate Fits(s: string, mask: string) {
    |s| == |mask| && forall i :: 0 <= i < |s| ==>
      if mask[i] == 'd' then IsDigit(s[i]) else if mask[i] == 'h' then Hex(s[i]) else s[i] == mask[i]
  }

  const UUID_MASK := "hhhhhhhh-hhhh-hhhh-hhhh-hhhhhhhhhhhh"
  const MICRO_TEXT_MASK := "dddd-dd-ddTdd:dd:dd.ddddddZ"

  lemma MaskHasNoBar(s: string, mask: string)
    requires Fits(s, mask) && '|' !in mask
    ensures '|' !in s
  {
    forall i | 0 <= i < |s| ensures s[i] != '|' {
      assert mask[i] in mask;
    }
  }

  /** The dead-letter cursor: both halves carried verbatim. */
  function DecodeOutbox(payload: string): Option<(string, string)> {
    var parts := Split(payload);
    if parts.Some? && Fits(parts.value.0, MICRO_TEXT_MASK) && Fits(parts.value.1, UUID_MASK) then parts else None
  }

  /** It decodes exactly the cursors it encodes, and to what was encoded. */
  lemma OutboxCodec(payload: string, time: string, id: string)
    ensures DecodeOutbox(payload) == Some((time, id)) <==>
      payload == Join(time, id) && Fits(time, MICRO_TEXT_MASK) && Fits(id, UUID_MASK)
  {
    SplitIff(payload, time, id);
    if Fits(time, MICRO_TEXT_MASK) { MaskHasNoBar(time, MICRO_TEXT_MASK); }
  }

  /**
   * The audit cursor: the time half goes through the platform's date text, `isoText` to the
   * millisecond and `parse` back.
   */
  function DecodeAudit(payload: string, parse: string -> Option<int>): Option<(int, string)> {
    var parts := Split(payload);
    if parts.None? || parse(parts.value.0).None? || !Fits(parts.value.1, UUID_MASK) then None
    else Some((parse(parts.value.0).value, parts.value.1))
  }

  /** The milliseconds a platform date can hold, either side of 1970. */
  const MAX_DATE_MS: int := 8_640_000_000_000_000

  predicate IsDate(ms: int) { -MAX_DATE_MS <= ms <= MAX_DATE_MS }

  /** What the platform promises of its date text. */
  ghost predicate DatesRoundTrip(isoText: int -> string, parse: string -> Option<int>) {
    forall ms: int :: IsDate(ms) ==> parse(isoText(ms)) == Some(ms) && '|' !in isoText(ms) && isoText(ms) != ""
  }

  /** An audit cursor comes back as the row's id and its timestamp cut to the millisecond. */
  lemma AuditCursorSurvives(r: Row, id: string, isoText: int -> string, parse: string -> Option<int>)
    requires DatesRoundTrip(isoText, parse)
    ensures var ms := r.micros / 1000;
            && Cursor(1000 * ms, r.id) == CursorAt(Milli, r)
            && (IsDate(ms) ==>
                  (DecodeAudit(Join(isoText(ms), id), parse) == Some((ms, id)) <==> Fits(id, UUID_MASK)))
  {
    SplitIff(Join(isoText(r.micros / 1000), id), isoText(r.micros / 1000), id);
  }
}

/** SQL `LIKE` with the default escape, and the audit log's use of it for prefixes. */
module LikePatterns {

  function Like(p: string, s: string): bool
    decreases |p| + |s|
  {
    if |p| == 0 then |s| == 0
    else if p[0] == '%' then Like(p[1..], s) || (|s| > 0 && Like(p, s[1..]))
    else if |s| == 0 then false
    else if p[0] == '_' then Like(p[1..], s[1..])
    else if p[0] == '\\' then |p| > 1 && p[1] == s[0] && Like(p[2..], s[1..])
    else p[0] == s[0] && Like(p[1..], s[1..])
  }

  predicate Special(c: char) { c == '%' || c == '_' || c == '\\' }

  predicate Plain(q: string) { forall i :: 0 <= i < |q| ==> !Special(q[i]) }

  /** The audit filter: an action matches when it is `LIKE` the supplied text followed by `%`. */
  predicate ActionMatches(q: string, action: string) { Like(q + "%", action) }

  lemma {:induction false} AnyTail(s: string)
    ensures Like("%", s)
  {
    if |s| > 0 { AnyTail(s[1..]); }
  }

  lemma {:induction false} PlainIsPrefix(q: string, s: string)
    requires Plain(q)
    ensures ActionMatches(q, s) <==> q <= s
  {
    if |q| == 0 {
      assert q + "%" == "%";
      AnyTail(s);
    } else if |s| > 0 {
      assert (q + "%")[1..] == q[1..] + "%" && (q + "%")[0] == q[0];
      PlainIsPrefix(q[1..], s[1..]);
      if q <= s { assert forall i :: 0 <= i < |q[1..]| ==> q[1..][i] == q[i + 1] == s[i + 1] == s[1..][i]; }
      if q[1..] <= s[1..] && q[0] == s[0] {
        assert s == [s[0]] + s[1..] && q == [q[0]] + q[1..];
      }
    }
  }

  /** A string the pattern matches. */
  function Instance(q: string): (s: string)
    ensures |s| <= |q|
  {
    if |q| == 0 then ""
    else if q[0] == '%' then Instance(q[1..])
    else if q[0] == '_' then "a" + Instance(q[1..])
    else if q[0] == '\\' then if |q| == 1 then "%" else [q[1]] + Instance(q[2..])
    else [q[0]] + Instance(q[1..])
  }

  lemma {:induction false} InstanceMatches(q: string)
    ensures ActionMatches(q, Instance(q))
  {
    var p, s := q + "%", Instance(q);
    if |q| == 0 {
      AnyTail(s);
      assert p == "%";
    } else if q[0] == '\\' {
      if |q| == 1 {
        assert p == "\\%" && p[2..] == "" && s[1..] == "";
      } else {
        assert p[2..] == q[2..] + "%" && s[1..] == Instance(q[2..]);
        InstanceMatches(q[2..]);
      }
    } else {
      assert p[1..] == q[1..] + "%";
      InstanceMatches(q[1..]);
      if q[0] != '%' { assert s[1..] == Instance(q[1..]); }
    }
  }

  /** A string the pattern matches although it does not start with `q`. */
  function Stray(q: string): string
    requires !Plain(q)
  {
    if q[0] == '%' || q[0] == '_' then "x" + Instance(q[1..])
    else if q[0] == '\\' then Instance(q)
    else [q[0]] + Stray(q[1..])
  }

  lemma {:induction false} StrayMatches(q: string)
    requires !Plain(q)
    ensures ActionMatches(q, Stray(q)) && !(q <= Stray(q))
  {
    var p, s := q + "%", Stray(q);
    assert p[1..] == q[1..] + "%";
    if q[0] == '%' || q[0] == '_' {
      InstanceMatches(q[1..]);
      assert s[1..] == Instance(q[1..]);
      assert s[0] != q[0];
    } else if q[0] == '\\' {
      InstanceMatches(q);
      assert |q| == 1 ==> s[0] != q[0];
    } else {
      assert forall i :: 1 <= i < |q| ==> q[i] == q[1..][i - 1];
      StrayMatches(q[1..]);
      assert s[1..] == Stray(q[1..]);
      assert forall i :: 0 <= i < |q| - 1 && i < |s| - 1 ==> q[1..][i] == q[i + 1] && s[1..][i] == s[i + 1];
    }
  }

  /** The filter is a prefix match for every action exactly when the supplied text has no special character. */
  lemma PrefixFilterIff(q: string)
    ensures (forall action: string :: ActionMatches(q, action) <==> q <= action) <==> Plain(q)
  {
    if Plain(q) {
      forall action: string ensures ActionMatches(q, action) <==> q <= action { PlainIsPrefix(q, action); }
    } else {
      StrayMatches(q);
    }
  }
}

/** The audit log and dead-letter listings: filters pushed clause by clause, then one ordered query. */
module Listings {
  import opened Basics
  import opened LikePatterns
  import opened Paging

  datatype AuditInput = AuditInput(tenant: nat, action: Option<string>, actor: Option<nat>, store: Option<nat>,
                                   from: Option<int>, to: Option<int>)

  datatype OutboxInput = OutboxInput(eventType: Option<string>, tenant: Option<nat>)

  datatype Clause =
    | TenantIs(tenant: nat)
    | ActionLike(text: string)
    | ActorIs(actor: nat)
    | StoreIs(store: nat)
    | NotBefore(micros: int)
    | NotAfter(micros: int)
    | IsDeadLettered
    | IsProcessed
    | TypeIs(eventType: string)
    | BelowCursor(cursor: Cursor)

  predicate Holds(c: Clause, r: Row) {
    match c
    case TenantIs(t) => r.body.tenant == Some(t)
    case ActionLike(text) => r.body.AuditBody? && ActionMatches(text, r.body.action)
    case ActorIs(a) => r.body.AuditBody? && r.body.actor == Some(a)
    case StoreIs(s) => r.body.AuditBody? && r.body.store == Some(s)
    case NotBefore(m) => r.micros >= m
    case NotAfter(m) => r.micros <= m
    case IsDeadLettered => r.body.OutboxBody? && r.body.deadLettered
    case IsProcessed => r.body.OutboxBody? && r.body.processed
    case TypeIs(t) => r.body.OutboxBody? && r.body.eventType == t
    case BelowCursor(cursor) => Below(r, cursor)
  }

  predicate AllHold(cs: seq<Clause>, r: Row) { forall i :: 0 <= i < |cs| ==> Holds(cs[i], r) }

  function Push(cs: seq<Clause>, c: Clause): (r: seq<Clause>)
    ensures forall row :: AllHold(r, row) <==> AllHold(cs, row) && Holds(c, row)
  {
    var r := cs + [c];
    assert forall i :: 0 <= i < |cs| ==> r[i] == cs[i];
    assert r[|cs|] == c;
    r
  }

  /** An absent filter lets every row through. */
  predicate AuditWanted(q: AuditInput, r: Row) {
    && r.body.AuditBody? && r.body.tenant == Some(q.tenant)
    && (q.action.Some? ==> ActionMatches(q.action.value, r.body.action))
    && (q.actor.Some? ==> r.body.actor == q.actor)
    && (q.store.Some? ==> r.body.store == q.store)
    && (q.from.Some? ==> r.micros >= q.from.value)
    && (q.to.Some? ==> r.micros <= q.to.value)
  }

  predicate OutboxWanted(q: OutboxInput, r: Row) {
    && r.body.OutboxBody? && r.body.deadLettered && r.body.processed
    && (q.eventType.Some? ==> r.body.eventType == q.eventType.value)
    && (q.tenant.Some? ==> r.body.tenant == q.tenant)
  }

  function AuditKeep(q: AuditInput): Row -> bool { (r: Row) => AuditWanted(q, r) }

  function OutboxKeep(q: OutboxInput): Row -> bool { (r: Row) => OutboxWanted(q, r) }

  /** `SELECT … WHERE all clauses ORDER BY micros DESC, id DESC LIMIT limit`. */
  method Query(table: seq<Row>, clauses: seq<Clause>, limit: nat, ghost keep: Row -> bool, ghost cursor: Option<Cursor>)
    returns (rows: seq<Row>)
    requires forall i :: 0 <= i < |table| ==> (AllHold(clauses, table[i]) <==> Wanted(keep, cursor, table[i]))
    ensures rows == Take(Matching(table, keep, cursor), limit)
  {
    rows := [];
    for i := 0 to |table|
      invariant rows == Matching(table[..i], keep, cursor)
    {
      assert table[..i + 1][..i] == table[..i];
      if AllHold(clauses, table[i]) { rows := Insert(rows, table[i]); }
    }
    assert table[..|table|] == table;
    rows := Take(rows, limit);
  }

  /** `AuditRepository.runQuery`: only the clauses asked for are pushed. */
  method RunQuery(table: seq<Row>, q: AuditInput, cursor: Option<Cursor>, limit: nat) returns (rows: seq<Row>)
    requires forall i :: 0 <= i < |table| ==> table[i].body.AuditBody?
    ensures rows == Take(Matching(table, AuditKeep(q), cursor), limit)
  {
    hide Matching, Take, ActionMatches, Below, Push;
    var predicates := Push([], TenantIs(q.tenant));
    if q.action.Some? { predicates := Push(predicates, ActionLike(q.action.value)); }
    if q.actor.Some? { predicates := Push(predicates, ActorIs(q.actor.value)); }
    if q.store.Some? { predicates := Push(predicates, StoreIs(q.store.value)); }
    if q.from.Some? { predicates := Push(predicates, NotBefore(q.from.value)); }
    if q.to.Some? { predicates := Push(predicates, NotAfter(q.to.value)); }
    if cursor.Some? { predicates := Push(predicates, BelowCursor(cursor.value)); }
    rows := Query(table, predicates, limit, AuditKeep(q), cursor);
  }

  /** `listDeadLettered`: two clauses always apply. */
  method ListDeadLettered(table: seq<Row>, q: OutboxInput, cursor: Option<Cursor>, limit: nat) returns (rows: seq<Row>)
    requires forall i :: 0 <= i < |table| ==> table[i].body.OutboxBody?
    ensures rows == Take(Matching(table, OutboxKeep(q), cursor), limit)
  {
    hide Matching, Take, Below, Push;
    var where := Push(Push([], IsDeadLettered), IsProcessed);
    if q.eventType.Some? { where := Push(where, TypeIs(q.eventType.value)); }
    if q.tenant.Some? { where := Push(where, TenantIs(q.tenant.value)); }
    if cursor.Some? { where := Push(where, BelowCursor(cursor.value)); }
    rows := Query(table, where, limit, OutboxKeep(q), cursor);
  }

  method ListAudit(table: seq<Row>, q: AuditInput, cursor: Option<Cursor>, limit: nat) returns (page: Page)
    requires forall i :: 0 <= i < |table| ==> table[i].body.AuditBody?
    ensures page == List(Milli, table, AuditKeep(q), cursor, limit)
  {
    hide Matching;
    var rows := RunQuery(table, q, cursor, limit + 1);
    page := PageOf(Milli, rows, limit);
  }

  method ListOutbox(table: seq<Row>, q: OutboxInput, cursor: Option<Cursor>, limit: nat) returns (page: Page)
    requires forall i :: 0 <= i < |table| ==> table[i].body.OutboxBody?
    ensures page == List(Micro, table, OutboxKeep(q), cursor, limit)
  {
    hide Matching;
    var rows := ListDeadLettered(table, q, cursor, limit + 1);
    page := PageOf(Micro, rows, limit);
  }

  /** The rows an audit query has to show below a cursor, for a prefix without special characters. */
  lemma AuditShows(table: seq<Row>, q: AuditInput, cursor: Option<Cursor>, r: Row)
    requires KeysUnique(table) && r.body.AuditBody? && (q.action.Some? ==> Plain(q.action.value))
    ensures r in Matching(table, AuditKeep(q), cursor) <==>
      && r in table && r.body.tenant == Some(q.tenant)
      && (q.action.None? || q.action.value <= r.body.action)
      && (q.actor.None? || q.actor == r.body.actor)
      && (q.store.None? || q.store == r.body.store)
      && (q.from.None? || q.from.value <= r.micros)
      && (q.to.None? || r.micros <= q.to.value)
      && (cursor.None? || r.micros < cursor.value.micros || (r.micros == cursor.value.micros && r.id < cursor.value.id))
  {
    hide Matching, ActionMatches, Plain, KeysUnique, Descending;
    MatchingIs(table, AuditKeep(q), cursor);
    if q.action.Some? { PlainIsPrefix(q.action.value, r.body.action); }
  }

  /** The rows a dead-letter query has to show below a cursor. */
  lemma DeadLettersShow(table: seq<Row>, q: OutboxInput, cursor: Option<Cursor>, r: Row)
    requires KeysUnique(table) && r.body.OutboxBody?
    ensures r in Matching(table, OutboxKeep(q), cursor) <==>
      && r in table && r.body.deadLettered && r.body.processed
      && (q.eventType.None? || q.eventType.value == r.body.eventType)
      && (q.tenant.None? || q.tenant == r.body.tenant)
      && (cursor.None? || r.micros < cursor.value.micros || (r.micros == cursor.value.micros && r.id < cursor.value.id))
  {
    hide Matching, KeysUnique, Descending;
    MatchingIs(table, OutboxKeep(q), cursor);
  }

  // ---- a table that loses a row ---------------------------------------------------------------------

  const EVERYTHING: AuditInput := AuditInput(0, None, None, None, None, None)

  function Event(micros: int, id: nat): Row { Row(micros, id, AuditBody(Some(0), "auth", None, None)) }

  lemma TwoMatching(older: Row, newer: Row, keep: Row -> bool, cursor: Option<Cursor>)
    requires Older(older, newer) && Wanted(keep, None, older) && Wanted(keep, None, newer)
    requires cursor.Some? ==> !Wanted(keep, cursor, older) && !Wanted(keep, cursor, newer)
    ensures Matching([older, newer], keep, cursor) == if cursor.None? then [newer, older] else []
  {
    hide Older, Wanted;
    assert [older, newer][..1] == [older] && [older][..0] == [];
    assert Matching([], keep, cursor) == [];
    if cursor.None? {
      assert Matching([older], keep, cursor) == [older];
      assert [older][..0] == [] && Insert([older], newer) == [newer] + [older];
    }
  }

  /** Two events of one millisecond, listed one a page: the older one is never shown. */
  lemma LossyWalkExample()
    ensures var table := [Event(1001, 1), Event(1002, 2)];
            && KeysUnique(table)
            && Matching(table, AuditKeep(EVERYTHING), None) == [Event(1002, 2), Event(1001, 1)]
            && Walk(Milli, table, AuditKeep(EVERYTHING), None, 1) == [Event(1002, 2)]
  {
    hide ActionMatches, Walk, Ends, Matching;
    var older, newer, keep := Event(1001, 1), Event(1002, 2), AuditKeep(EVERYTHING);
    var table, c := [older, newer], CursorAt(Milli, newer);
    TwoMatching(older, newer, keep, None);
    TwoMatching(older, newer, keep, Some(c));
    Unfold(Milli, table, keep, None, 1);
    Unfold(Milli, table, keep, Some(c), 1);
  }
}
