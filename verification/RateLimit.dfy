/**
 * The fixed-window rate limiter over one Redis counter: INCR, then PEXPIRE NX by the hit that
 * saw one, then PTTL, with other hits and time passing between the commands.
 */
module RateLimit {
  import opened Basics

  datatype Bucket = Bucket(limit: nat, windowMs: nat)

  /** A counter key; no expiry until a TTL is set. */
  datatype Key = Key(count: nat, expiresAt: Option<int>)

  /** A counter key and the time its first hit made it; the last one is the key in Redis now. */
  datatype Window = Window(start: int, key: Key)

  datatype Hit = Hit(at: int, window: nat, count: nat)

  datatype Decision = Decision(allowed: bool, count: nat, remaining: nat, resetMs: int)

  datatype Phase = Seeding | Reading | Done(decision: Decision) | Crashed

  datatype Request = Request(count: nat, phase: Phase)

  datatype World = World(windows: seq<Window>, hits: seq<Hit>, requests: seq<Request>, now: int)

  datatype Action = Incr | Advance(q: nat) | Crash(q: nat) | Tick(elapsed: nat)

  predicate Live(k: Key, now: int) { k.expiresAt.None? || k.expiresAt.value > now }

  /** The key as Redis answers for it: an expired key is gone. */
  function Visible(w: World): Option<Key> {
    if |w.windows| > 0 && Live(w.windows[|w.windows| - 1].key, w.now) then Some(w.windows[|w.windows| - 1].key)
    else None
  }

  function Incremented(k: Option<Key>): Key { if k.Some? then k.value.(count := k.value.count + 1) else Key(1, None) }

  /** `PEXPIRE … NX`: only a present key without a TTL takes one. */
  function Seeded(k: Option<Key>, now: int, windowMs: nat): Option<Key> {
    if k.Some? && k.value.expiresAt.None? then Some(k.value.(expiresAt := Some(now + windowMs))) else k
  }

  /** `PTTL`: -2 for no key, -1 for no TTL. */
  function Ttl(k: Option<Key>, now: int): int {
    if k.None? then -2 else if k.value.expiresAt.None? then -1 else k.value.expiresAt.value - now
  }

  function Decide(b: Bucket, count: nat, ttl: int): Decision {
    Decision(count <= b.limit, count, Max(0, b.limit - count), if ttl < 0 then -1 else ttl)
  }

  /** Redis now holds `k`: a new window if the old key was gone, else the last window's new key. */
  function Store(w: World, k: Key): seq<Window> {
    if Visible(w).None? then w.windows + [Window(w.now, k)]
    else w.windows[|w.windows| - 1 := w.windows[|w.windows| - 1].(key := k)]
  }

  function Goto(w: World, q: nat, p: Phase): World
    requires q < |w.requests|
  {
    w.(requests := w.requests[q := w.requests[q].(phase := p)])
  }

  function Step(b: Bucket, w: World, a: Action): World {
    match a
    case Incr =>
      var k := Incremented(Visible(w));
      var windows := Store(w, k);
      w.(windows := windows,
         hits := w.hits + [Hit(w.now, |windows| - 1, k.count)],
         requests := w.requests + [Request(k.count, if k.count == 1 then Seeding else Reading)])
    case Advance(q) =>
      if q >= |w.requests| then w
      else (
        match w.requests[q].phase
        case Seeding =>
          var k := Seeded(Visible(w), w.now, b.windowMs);
          Goto(w, q, Reading).(windows := if k.Some? then Store(w, k.value) else w.windows)
        case Reading => Goto(w, q, Done(Decide(b, w.requests[q].count, Ttl(Visible(w), w.now))))
        case _ => w)
    case Crash(q) => if q < |w.requests| && !w.requests[q].phase.Done? then Goto(w, q, Crashed) else w
    case Tick(elapsed) => w.(now := w.now + elapsed)
  }

  const START: World := World([], [], [], 0)

  function Run(b: Bucket, w: World, acts: seq<Action>): World {
    if |acts| == 0 then w else Step(b, Run(b, w, acts[..|acts| - 1]), acts[|acts| - 1])
  }

  // ---- the invariant --------------------------------------------------------------------------------

  predicate WindowHolds(b: Bucket, now: int, v: Window) {
    && v.start <= now && v.key.count > 0
    && (v.key.expiresAt.Some? ==> v.start + b.windowMs <= v.key.expiresAt.value <= now + b.windowMs)
  }

  /** The earlier window was over when the later one started. */
  predicate Over(v: Window, later: Window) { v.key.expiresAt.Some? && v.key.expiresAt.value <= later.start }

  /** Each window lasts at least `windowMs`, and each is over before the next starts. */
  predicate WindowsHold(b: Bucket, w: World) {
    && (forall i :: 0 <= i < |w.windows| ==> WindowHolds(b, w.now, w.windows[i]))
    && (forall i, j :: 0 <= i < j < |w.windows| ==> Over(w.windows[i], w.windows[j]))
  }

  /** Each hit falls inside its window. */
  predicate HitHolds(w: World, h: Hit) {
    && h.window < |w.windows|
    && w.windows[h.window].start <= h.at <= w.now
    && (w.windows[h.window].key.expiresAt.Some? ==> h.at < w.windows[h.window].key.expiresAt.value)
  }

  /** At most one request has yet to set the TTL, and while it has not, the last key has none. */
  predicate SeedersHold(w: World) {
    && (forall p, q :: 0 <= p < q < |w.requests| && w.requests[p].phase.Seeding? ==> !w.requests[q].phase.Seeding?)
    && (forall q :: 0 <= q < |w.requests| && w.requests[q].phase.Seeding? ==>
          |w.windows| > 0 && w.windows[|w.windows| - 1].key.expiresAt.None?)
  }

  function HitIn(window: nat): Hit -> int { (h: Hit) => if h.window == window then 1 else 0 }

  function AllowedIn(b: Bucket, window: nat): Hit -> int {
    (h: Hit) => if h.window == window && h.count <= b.limit then 1 else 0
  }

  /** A window has counted its hits, and allowed exactly the first `limit` of them. */
  predicate CountHolds(b: Bucket, w: World, i: nat)
    requires i < |w.windows|
  {
    && Total(w.hits, HitIn(i)) == w.windows[i].key.count
    && Total(w.hits, AllowedIn(b, i)) == Min(w.windows[i].key.count, b.limit)
  }

  /** What a caller was told about its hit. */
  predicate AnswerHolds(b: Bucket, h: Hit, d: Decision) {
    && d.count == h.count
    && (d.allowed <==> h.count <= b.limit)
    && d.remaining == (if d.allowed then b.limit - d.count else 0)
    && (d.resetMs == -1 || 0 < d.resetMs <= b.windowMs)
  }

  /** Each request made one hit, and each decision handed out is about that hit. */
  predicate AnswersHold(b: Bucket, w: World) {
    && |w.requests| == |w.hits|
    && forall q :: 0 <= q < |w.requests| ==>
         && w.requests[q].count == w.hits[q].count
         && (w.requests[q].phase.Done? ==> AnswerHolds(b, w.hits[q], w.requests[q].phase.decision))
  }

  ghost predicate Inv(b: Bucket, w: World) {
    && AnswersHold(b, w)
    && WindowsHold(b, w)
    && (forall i :: 0 <= i < |w.hits| ==> HitHolds(w, w.hits[i]))
    && SeedersHold(w)
    && (forall i :: 0 <= i < |w.windows| ==> CountHolds(b, w, i))
  }

  lemma WindowsStay(b: Bucket, w: World, a: Action)
    requires WindowsHold(b, w)
    ensures WindowsHold(b, Step(b, w, a))
  {
    match a {
      case Incr => StoredWindows(b, w, Incremented(Visible(w)));
      case Advance(q) =>
        if Seeded(Visible(w), w.now, b.windowMs).Some? {
          StoredWindows(b, w, Seeded(Visible(w), w.now, b.windowMs).value);
        }
      case _ =>
    }
  }

  /** A key made from the visible one, with its TTL kept or set from now. */
  lemma StoredWindows(b: Bucket, w: World, k: Key)
    requires WindowsHold(b, w) && k.count > 0
    requires k.expiresAt == (if Visible(w).Some? then Visible(w).value.expiresAt else None)
          || k.expiresAt == Some(w.now + b.windowMs)
    ensures WindowsHold(b, w.(windows := Store(w, k)))
  {
    var last, after := |w.windows| - 1, Store(w, k);
    if last >= 0 { assert WindowHolds(b, w.now, w.windows[last]); }
    forall i, j | 0 <= i < j < |after| ensures Over(after[i], after[j]) {
      if i < last { assert Over(w.windows[i], w.windows[last]); }
    }
  }

  lemma HitStays(b: Bucket, w: World, a: Action, i: nat)
    requires b.windowMs > 0 && WindowsHold(b, w) && i < |Step(b, w, a).hits|
    requires i < |w.hits| ==> HitHolds(w, w.hits[i])
    ensures HitHolds(Step(b, w, a), Step(b, w, a).hits[i])
  {
    assert |w.windows| > 0 ==> WindowHolds(b, w.now, w.windows[|w.windows| - 1]);
  }

  lemma SeedersStay(b: Bucket, w: World, a: Action)
    requires SeedersHold(w) && WindowsHold(b, w)
    ensures SeedersHold(Step(b, w, a))
  {
    assert |w.windows| > 0 ==> WindowHolds(b, w.now, w.windows[|w.windows| - 1]);
    var after := Step(b, w, a);
    forall q | 0 <= q < |after.requests| && after.requests[q].phase.Seeding?
      ensures |after.windows| > 0 && after.windows[|after.windows| - 1].key.expiresAt.None?
      ensures forall p :: 0 <= p < |after.requests| && p != q ==> !after.requests[p].phase.Seeding?
    {
      if q < |w.requests| { assert w.requests[q].phase.Seeding?; }
    }
  }

  lemma AnswersStay(b: Bucket, w: World, a: Action)
    requires AnswersHold(b, w) && WindowsHold(b, w)
    ensures AnswersHold(b, Step(b, w, a))
  {
    assert |w.windows| > 0 ==> WindowHolds(b, w.now, w.windows[|w.windows| - 1]);
    hide WindowsHold, WindowHolds, Store;
  }

  lemma CountStays(b: Bucket, w: World, a: Action, i: nat)
    requires (forall j :: 0 <= j < |w.hits| ==> HitHolds(w, w.hits[j])) && i < |Step(b, w, a).windows|
    requires i < |w.windows| ==> CountHolds(b, w, i)
    ensures CountHolds(b, Step(b, w, a), i)
  {
    hide Total;
    var after := Step(b, w, a);
    if a.Incr? {
      TotalSnoc(w.hits, after.hits[|w.hits|], HitIn(i));
      TotalSnoc(w.hits, after.hits[|w.hits|], AllowedIn(b, i));
      if i == |w.windows| {
        TotalZero(w.hits, HitIn(i));
        TotalZero(w.hits, AllowedIn(b, i));
      }
    }
  }

  lemma StepKeeps(b: Bucket, w: World, a: Action)
    requires b.windowMs > 0 && Inv(b, w)
    ensures Inv(b, Step(b, w, a))
  {
    hide Step, WindowsHold, HitHolds, SeedersHold, CountHolds, AnswersHold;
    AnswersStay(b, w, a);
    WindowsStay(b, w, a);
    SeedersStay(b, w, a);
    var after := Step(b, w, a);
    forall i | 0 <= i < |after.hits| ensures HitHolds(after, after.hits[i]) { HitStays(b, w, a, i); }
    forall i | 0 <= i < |after.windows| ensures CountHolds(b, after, i) { CountStays(b, w, a, i); }
  }

  /** Any trace of hits keeps the window and count invariants. */
  lemma {:induction false} RunKeeps(b: Bucket, w: World, acts: seq<Action>)
    requires b.windowMs > 0 && Inv(b, w)
    ensures Inv(b, Run(b, w, acts))
  {
    hide Inv, Step;
    if |acts| > 0 {
      RunKeeps(b, w, acts[..|acts| - 1]);
      StepKeeps(b, Run(b, w, acts[..|acts| - 1]), acts[|acts| - 1]);
    }
  }

  /**
   * In every trace of hits each window allows exactly the smaller of its hits and the limit,
   * however long its first hit takes to set the TTL and however many hits come meanwhile.
   */
  lemma FromStart(b: Bucket, acts: seq<Action>)
    requires b.windowMs > 0
    ensures Inv(b, Run(b, START, acts))
  {
    RunKeeps(b, START, acts);
  }

  // ---- any stretch of one window length ----------------------------------------------------------------

  function AllowedDuring(b: Bucket, t: int): Hit -> int {
    (h: Hit) => if t <= h.at <= t + b.windowMs && h.count <= b.limit then 1 else 0
  }

  function TwoWindows(b: Bucket, k: nat): Hit -> int { (h: Hit) => AllowedIn(b, k)(h) + AllowedIn(b, k + 1)(h) }

  /** Hits two windows apart are more than a window length apart. */
  lemma FarApart(b: Bucket, w: World, g: Hit, h: Hit)
    requires WindowsHold(b, w) && HitHolds(w, g) && HitHolds(w, h) && g.window + 1 < h.window
    ensures h.at > g.at + b.windowMs
  {
    var between := w.windows[g.window + 1];
    assert Over(w.windows[g.window], between) && WindowHolds(b, w.now, between) && Over(between, w.windows[h.window]);
  }

  lemma Earliest(hits: seq<Hit>, f: Hit -> int) returns (i: nat)
    requires Total(hits, f) > 0
    ensures i < |hits| && f(hits[i]) > 0
    ensures forall j :: 0 <= j < |hits| && f(hits[j]) > 0 ==> hits[i].window <= hits[j].window
  {
    i := TotalPositive(hits, f);
    for j := 0 to |hits|
      invariant i < |hits| && f(hits[i]) > 0
      invariant forall k :: 0 <= k < j && f(hits[k]) > 0 ==> hits[i].window <= hits[k].window
    {
      if f(hits[j]) > 0 && hits[j].window < hits[i].window { i := j; }
    }
  }

  /** Any stretch of one window length, both ends included, holds at most twice the limit of allowed hits. */
  lemma BurstBound(b: Bucket, w: World, t: int)
    requires b.windowMs > 0 && Inv(b, w)
    ensures Total(w.hits, AllowedDuring(b, t)) <= 2 * b.limit
  {
    hide WindowsHold, HitHolds, CountHolds, SeedersHold, Total;
    var f := AllowedDuring(b, t);
    if Total(w.hits, f) > 0 {
      var first := Earliest(w.hits, f);
      var k := w.hits[first].window;
      forall j | 0 <= j < |w.hits| ensures f(w.hits[j]) <= TwoWindows(b, k)(w.hits[j]) {
        assert HitHolds(w, w.hits[first]) && HitHolds(w, w.hits[j]);
        WithinTwo(b, w, t, w.hits[first], w.hits[j]);
      }
      TotalMonotone(w.hits, w.hits, f, TwoWindows(b, k));
      SumOfTotals(w.hits, AllowedIn(b, k), AllowedIn(b, k + 1), TwoWindows(b, k));
      WindowLimit(b, w, k);
      WindowLimit(b, w, k + 1);
    }
  }

  lemma WithinTwo(b: Bucket, w: World, t: int, first: Hit, h: Hit)
    requires WindowsHold(b, w) && HitHolds(w, first) && HitHolds(w, h)
    requires AllowedDuring(b, t)(first) > 0 && (AllowedDuring(b, t)(h) > 0 ==> first.window <= h.window)
    ensures AllowedDuring(b, t)(h) <= TwoWindows(b, first.window)(h)
  {
    hide WindowsHold, HitHolds;
    assert t <= first.at;
    assert TwoWindows(b, first.window)(h) == AllowedIn(b, first.window)(h) + AllowedIn(b, first.window + 1)(h);
    if h.window > first.window + 1 { FarApart(b, w, first, h); }
  }

  lemma WindowLimit(b: Bucket, w: World, k: nat)
    requires Inv(b, w)
    ensures Total(w.hits, AllowedIn(b, k)) <= b.limit
  {
    if k < |w.windows| {
      assert CountHolds(b, w, k);
    } else {
      forall i | 0 <= i < |w.hits| ensures AllowedIn(b, k)(w.hits[i]) == 0 { assert HitHolds(w, w.hits[i]); }
      TotalZero(w.hits, AllowedIn(b, k));
    }
  }

  // ---- the answers given ---------------------------------------------------------------------------------

  datatype Answer = Answer(hit: Hit, phase: Phase)

  /** Each hit with what its caller has been told so far. */
  function Answers(w: World): (s: seq<Answer>)
    requires |w.requests| == |w.hits|
    ensures |s| == |w.hits| && forall q :: 0 <= q < |s| ==> s[q] == Answer(w.hits[q], w.requests[q].phase)
  {
    seq(|w.hits|, q requires 0 <= q < |w.hits| => Answer(w.hits[q], w.requests[q].phase))
  }

  predicate Told(a: Answer) { a.phase.Done? && a.phase.decision.allowed }

  function ToldIn(window: nat): Answer -> int { (a: Answer) => if a.hit.window == window && Told(a) then 1 else 0 }

  function ToldDuring(b: Bucket, t: int): Answer -> int {
    (a: Answer) => if t <= a.hit.at <= t + b.windowMs && Told(a) then 1 else 0
  }

  /** A window tells at most the smaller of its hits and the limit that they are allowed, and that many in the end. */
  lemma ToldInWindow(b: Bucket, w: World, i: nat)
    requires Inv(b, w) && i < |w.windows|
    ensures |w.requests| == |w.hits|
    ensures Total(Answers(w), ToldIn(i)) <= Min(w.windows[i].key.count, b.limit)
    ensures (forall q :: 0 <= q < |w.requests| ==> w.requests[q].phase.Done?) ==>
      Total(Answers(w), ToldIn(i)) == Min(w.windows[i].key.count, b.limit)
  {
    hide WindowsHold, SeedersHold, HitHolds, Total;
    assert CountHolds(b, w, i);
    TotalMonotone(Answers(w), w.hits, ToldIn(i), AllowedIn(b, i));
    if forall q :: 0 <= q < |w.requests| ==> w.requests[q].phase.Done? {
      TotalMonotone(w.hits, Answers(w), AllowedIn(b, i), ToldIn(i));
    }
  }

  /** Any stretch of one window length holds at most twice the limit of hits told that they are allowed. */
  lemma ToldBurstBound(b: Bucket, w: World, t: int)
    requires b.windowMs > 0 && Inv(b, w)
    ensures |w.requests| == |w.hits| && Total(Answers(w), ToldDuring(b, t)) <= 2 * b.limit
  {
    hide WindowsHold, SeedersHold, HitHolds, CountHolds, Total;
    TotalMonotone(Answers(w), w.hits, ToldDuring(b, t), AllowedDuring(b, t));
    BurstBound(b, w, t);
  }

  /** The answer's reset time is what is left of the key's TTL when it is read, -1 when there is no key or no TTL. */
  lemma ResetIsTtl(b: Bucket, w: World, q: nat)
    requires q < |w.requests| && w.requests[q].phase.Reading?
    ensures var p := Step(b, w, Advance(q)).requests[q].phase;
            && p.Done? && p.decision.count == w.requests[q].count
            && p.decision.resetMs ==
               (if |w.windows| == 0 then -1
                else match w.windows[|w.windows| - 1].key.expiresAt
                  case None => -1
                  case Some(at) => if at > w.now then at - w.now else -1)
  {}

  // ---- the bound is reached --------------------------------------------------------------------------------

  function Repeat(n: nat): seq<Action> { if n == 0 then [] else Repeat(n - 1) + [Incr] }

  /** `n` hits at once on a fresh key. */
  predicate Burst(w: World, n: nat, after: World) {
    && after.windows == w.windows + [Window(w.now, Key(n, None))]
    && after.now == w.now && |after.hits| == |w.hits| + n && |after.requests| == |w.requests| + n && n > 0
    && after.hits[..|w.hits|] == w.hits && after.requests[|w.requests|] == Request(1, Seeding)
  }

  lemma FirstHit(b: Bucket, w: World)
    requires Visible(w).None?
    ensures Burst(w, 1, Step(b, w, Incr)) && Step(b, w, Incr).hits == w.hits + [Hit(w.now, |w.windows|, 1)]
  {}

  lemma OneMoreHit(b: Bucket, w: World, n: nat, before: World)
    requires Burst(w, n, before)
    ensures Burst(w, n + 1, Step(b, before, Incr))
    ensures Step(b, before, Incr).hits == before.hits + [Hit(w.now, |w.windows|, n + 1)]
  {
    assert Visible(before) == Some(Key(n, None));
    assert Store(before, Key(n + 1, None)) == w.windows + [Window(w.now, Key(n + 1, None))];
  }

  lemma {:induction false} HitsInARow(b: Bucket, w: World, n: nat, t: int)
    requires 0 < n <= b.limit && Visible(w).None? && t <= w.now <= t + b.windowMs
    ensures Burst(w, n, Run(b, w, Repeat(n)))
    ensures Total(Run(b, w, Repeat(n)).hits, AllowedDuring(b, t)) == Total(w.hits, AllowedDuring(b, t)) + n
  {
    hide Step, Visible, Burst, Total;
    RepeatLength(n);
    RepeatLength(n - 1);
    assert Repeat(n)[..n - 1] == Repeat(n - 1);
    var before := Run(b, w, Repeat(n - 1));
    if n == 1 {
      FirstHit(b, w);
    } else {
      HitsInARow(b, w, n - 1, t);
      OneMoreHit(b, w, n - 1, before);
    }
    TotalSnoc(before.hits, Hit(w.now, |w.windows|, n), AllowedDuring(b, t));
  }

  lemma {:induction false} RepeatLength(n: nat)
    ensures |Repeat(n)| == n
  {
    if n > 0 { RepeatLength(n - 1); }
  }

  lemma {:induction false} RunConcat(b: Bucket, w: World, xs: seq<Action>, ys: seq<Action>)
    ensures Run(b, w, xs + ys) == Run(b, Run(b, w, xs), ys)
  {
    if |ys| == 0 {
      assert xs + ys == xs;
    } else {
      assert (xs + ys)[..|xs + ys| - 1] == xs + ys[..|ys| - 1];
      RunConcat(b, w, xs, ys[..|ys| - 1]);
    }
  }

  /** A burst at the end of one window and a burst at the start of the next: the bound is reached. */
  function TwoBursts(b: Bucket): seq<Action> {
    Repeat(b.limit) + [Advance(0), Tick(b.windowMs)] + Repeat(b.limit)
  }

  lemma BurstBoundReached(b: Bucket)
    requires b.limit > 0
    ensures Total(Run(b, START, TwoBursts(b)).hits, AllowedDuring(b, 0)) == 2 * b.limit
  {
    hide Total, Repeat;
    var burst, roll := Repeat(b.limit), [Advance(0), Tick(b.windowMs)];
    HitsInARow(b, START, b.limit, 0);
    var one := Run(b, START, burst);
    RunConcat(b, START, burst, roll);
    Rolls(b, one);
    RunConcat(b, START, burst + roll, burst);
    HitsInARow(b, Run(b, one, roll), b.limit, 0);
    NoHits(b);
  }

  lemma NoHits(b: Bucket)
    ensures Total(START.hits, AllowedDuring(b, 0)) == 0
  {}

  lemma Rolls(b: Bucket, one: World)
    requires b.limit > 0 && Burst(START, b.limit, one)
    ensures var two := Run(b, one, [Advance(0), Tick(b.windowMs)]);
            Visible(two).None? && two.hits == one.hits && two.now == b.windowMs
  {
    var acts := [Advance(0), Tick(b.windowMs)];
    assert acts[..1] == [Advance(0)] && [Advance(0)][..0] == [];
    assert Run(b, one, []) == one && Run(b, one, [Advance(0)]) == Step(b, one, Advance(0));
    assert Visible(one) == Some(Key(b.limit, None));
  }

  // ---- a first hit that never sets the TTL ---------------------------------------------------------------

  /** Nobody is left to set the TTL of the key in Redis. */
  predicate Stuck(w: World) {
    && |w.windows| > 0 && w.windows[|w.windows| - 1].key.expiresAt.None?
    && w.windows[|w.windows| - 1].key.count > 0
    && forall q :: 0 <= q < |w.requests| ==> !w.requests[q].phase.Seeding?
  }

  /**
   * If the first hit of a window dies between INCR and PEXPIRE, the window never rolls: no new
   * window ever starts.
   */
  lemma {:induction false} StuckForever(b: Bucket, w: World, acts: seq<Action>)
    requires Stuck(w)
    ensures Stuck(Run(b, w, acts)) && |Run(b, w, acts).windows| == |w.windows|
  {
    if |acts| > 0 {
      StuckForever(b, w, acts[..|acts| - 1]);
      StuckStep(b, Run(b, w, acts[..|acts| - 1]), acts[|acts| - 1]);
    }
  }

  lemma StuckStep(b: Bucket, w: World, a: Action)
    requires Stuck(w)
    ensures Stuck(Step(b, w, a)) && |Step(b, w, a).windows| == |w.windows|
  {}

  function IsAllowed(b: Bucket): Hit -> int { (h: Hit) => if h.count <= b.limit then 1 else 0 }

  /** Once the hits of such a window have used up the limit, no hit is ever allowed again. */
  lemma {:induction false} NeverAllowedAgain(b: Bucket, w: World, acts: seq<Action>)
    requires Stuck(w) && w.windows[|w.windows| - 1].key.count >= b.limit
    ensures Stuck(Run(b, w, acts)) && |Run(b, w, acts).windows| == |w.windows|
    ensures Run(b, w, acts).windows[|w.windows| - 1].key.count >= b.limit
    ensures Total(Run(b, w, acts).hits, IsAllowed(b)) == Total(w.hits, IsAllowed(b))
  {
    hide Step, Total, Stuck;
    if |acts| > 0 {
      NeverAllowedAgain(b, w, acts[..|acts| - 1]);
      StuckStep(b, Run(b, w, acts[..|acts| - 1]), acts[|acts| - 1]);
      NotAllowed(b, Run(b, w, acts[..|acts| - 1]), acts[|acts| - 1]);
    }
  }

  lemma NotAllowed(b: Bucket, w: World, a: Action)
    requires Stuck(w) && w.windows[|w.windows| - 1].key.count >= b.limit
    ensures |Step(b, w, a).windows| == |w.windows|
    ensures Step(b, w, a).windows[|w.windows| - 1].key.count >= b.limit
    ensures Total(Step(b, w, a).hits, IsAllowed(b)) == Total(w.hits, IsAllowed(b))
  {
    hide Total;
    if a.Incr? { TotalSnoc(w.hits, Step(b, w, a).hits[|w.hits|], IsAllowed(b)); }
  }

  /** Some continuation starts a new window. */
  ghost predicate CanRoll(b: Bucket, w: World) {
    exists acts: seq<Action> :: |Run(b, w, acts).windows| > |w.windows|
  }

  /**
   * A window can still roll exactly when its key has a TTL or the hit that is to set it is
   * still running.
   */
  lemma RollsIff(b: Bucket, w: World)
    requires b.windowMs > 0 && Inv(b, w)
    ensures CanRoll(b, w) <==> !Stuck(w)
  {
    if Stuck(w) {
      forall acts: seq<Action> ensures |Run(b, w, acts).windows| == |w.windows| { StuckForever(b, w, acts); }
    } else if Visible(w).None? {
      RollsNow(b, w, []);
    } else {
      var last := |w.windows| - 1;
      assert WindowHolds(b, w.now, w.windows[last]);
      if w.windows[last].key.expiresAt.Some? {
        var wait := [Tick(w.windows[last].key.expiresAt.value - w.now)];
        assert wait[..0] == [] && Run(b, w, []) == w;
        RollsNow(b, w, wait);
      } else {
        var q :| 0 <= q < |w.requests| && w.requests[q].phase.Seeding?;
        SeedThenWait(b, w, q);
        RollsNow(b, w, [Advance(q), Tick(b.windowMs)]);
      }
    }
  }

  /** Once the key is gone, the next hit starts a window. */
  lemma RollsNow(b: Bucket, w: World, wait: seq<Action>)
    requires Visible(Run(b, w, wait)).None? && |Run(b, w, wait).windows| == |w.windows|
    ensures CanRoll(b, w)
  {
    var acts := wait + [Incr];
    assert acts[..|acts| - 1] == wait;
    assert |Run(b, w, acts).windows| > |w.windows|;
  }

  lemma SeedThenWait(b: Bucket, w: World, q: nat)
    requires q < |w.requests| && w.requests[q].phase.Seeding? && |w.windows| > 0
    requires w.windows[|w.windows| - 1].key.expiresAt.None?
    ensures var after := Run(b, w, [Advance(q), Tick(b.windowMs)]);
            Visible(after).None? && |after.windows| == |w.windows|
  {
    var acts := [Advance(q), Tick(b.windowMs)];
    assert acts[..1] == [Advance(q)] && [Advance(q)][..0] == [];
    assert Run(b, w, []) == w && Run(b, w, [Advance(q)]) == Step(b, w, Advance(q));
  }

  /** The first hit dies before its PEXPIRE. */
  lemma StuckExample(b: Bucket)
    ensures Stuck(Run(b, START, [Incr, Crash(0)]))
  {
    var acts := [Incr, Crash(0)];
    assert acts[..1] == [Incr] && [Incr][..0] == [];
    assert Run(b, START, []) == START && Run(b, START, [Incr]) == Step(b, START, Incr);
  }

  // ---- the check as the service makes it -------------------------------------------------------------------

  class RedisKey {
    var key: Option<Key>

    /** The key as answered at `now`. */
    function At(now: int): Option<Key>
      reads this
    {
      if key.Some? && Live(key.value, now) then key else None
    }

    method Incr(now: int) returns (count: nat)
      modifies this
      ensures key == Some(Incremented(old(At(now)))) && count == key.value.count
    {
      if key.None? || !Live(key.value, now) { key := Some(Key(0, None)); }
      count := key.value.count + 1;
      key := Some(key.value.(count := count));
    }

    method PexpireNx(windowMs: nat, now: int) returns (applied: bool)
      requires windowMs > 0
      modifies this
      ensures At(now) == Seeded(old(At(now)), now, windowMs)
      ensures applied <==> old(At(now)).Some? && old(At(now)).value.expiresAt.None?
      ensures !applied ==> key == old(key)
    {
      applied := key.Some? && Live(key.value, now) && key.value.expiresAt.None?;
      if applied { key := Some(key.value.(expiresAt := Some(now + windowMs))); }
    }

    method Pttl(now: int) returns (ttl: int)
      ensures ttl == Ttl(At(now), now)
    {
      if key.None? || !Live(key.value, now) { return -2; }
      if key.value.expiresAt.None? { return -1; }
      ttl := key.value.expiresAt.value - now;
    }
  }

  /** One hit with nobody interleaved. */
  function CheckAlone(b: Bucket, w: World): World {
    var q := |w.requests|;
    var counted := Step(b, w, Incr);
    var seeded := if counted.requests[q].phase.Seeding? then Step(b, counted, Advance(q)) else counted;
    Step(b, seeded, Advance(q))
  }

  /** `check` does what the interleaved steps do, run together. */
  method Check(redis: RedisKey, b: Bucket, now: int) returns (decision: Decision)
    requires b.windowMs > 0
    modifies redis
    ensures var held := old(redis.At(now));
            var w := World(if held.Some? then [Window(now, held.value)] else [], [], [], now);
            && CheckAlone(b, w).requests == [Request(decision.count, Done(decision))]
            && Visible(CheckAlone(b, w)) == redis.At(now)
  {
    var count := redis.Incr(now);
    if count == 1 { var _ := redis.PexpireNx(b.windowMs, now); }
    var ttl := redis.Pttl(now);
    decision := Decision(count <= b.limit, count, Max(0, b.limit - count), if ttl < 0 then -1 else ttl);
  }
}
