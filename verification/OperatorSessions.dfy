/**
 * POS operator sessions of one tenant: sign-in, takeover and sign-out as the separate
 * statements they are, with any number of requests interleaved between statements.
 */
module OperatorSessions {
  import opened Basics

  type DeviceId = nat
  type StoreId = nat
  type UserId = nat
  type EventId = nat

  /** `OPERATOR_SESSION_TTL_MS`: eight hours. */
  const SESSION_TTL: int := 8 * 60 * 60 * 1000

  /** `event` is bookkeeping: the takeover that minted the row, none for a sign-in. */
  datatype Session = Session(device: DeviceId, store: StoreId, user: UserId, event: Option<EventId>,
                             revoked: bool, expiresAt: int)

  /** A takeover's idempotency row: who used the event first, and the session recorded for it. */
  datatype Key = Key(operator: UserId, session: Option<nat>)

  datatype Reply =
    | SignedIn(session: nat)
    | Replayed(session: nat)
    | TakeoverRequired
    | EventConflict
    | NothingToSupersede
    | SignedOut
    | SignOutRefused
    | Crashed

  datatype Phase =
    | SignInReady                                // no active session was seen; insert next
    | TakeoverFresh                              // key stored or still without a session; revoke next
    | TakeoverRevoked                            // insert next
    | TakeoverIssued(session: nat)               // record the session in the key next
    | ReplayFound(session: nat)                  // read the recorded session next
    | SignOutReady(session: nat)                 // guarded revoke next
    | Finished(reply: Reply)

  datatype Request = Request(device: DeviceId, store: StoreId, user: UserId, event: EventId, phase: Phase)

  /** A session's id and a request's id are their positions. */
  datatype World = World(sessions: seq<Session>, keys: map<(StoreId, EventId), Key>, requests: seq<Request>, now: int)

  datatype Action =
    | SignIn(device: DeviceId, store: StoreId, user: UserId)
    | Takeover(device: DeviceId, store: StoreId, user: UserId, event: EventId)
    | SignOut(session: nat, user: UserId)
    | Advance(q: nat)                            // the request's next statement
    | Crash(q: nat)
    | Tick(elapsed: nat)
    | Purge(store: StoreId, event: EventId)      // the key row is deleted
    | TakeoverUnkeyed(device: DeviceId, store: StoreId, user: UserId, event: EventId)
      // the same between the conflicting insert and the read: it goes on without a key

  predicate Live(s: Session, now: int) { !s.revoked && s.expiresAt > now }

  predicate At(s: Session, device: DeviceId, store: StoreId) { s.device == device && s.store == store }

  function LiveAt(now: int, device: DeviceId, store: StoreId): Session -> int {
    (s: Session) => if Live(s, now) && At(s, device, store) then 1 else 0
  }

  /** Active sessions of a (device, store). */
  function Active(ss: seq<Session>, now: int, device: DeviceId, store: StoreId): int {
    Total(ss, LiveAt(now, device, store))
  }

  function HeadingFor(device: DeviceId, store: StoreId): Request -> int {
    (r: Request) => if (r.phase.SignInReady? || r.phase.TakeoverRevoked?) && r.device == device && r.store == store
      then 1 else 0
  }

  /** Requests whose next statement inserts a session for the (device, store). */
  function Heading(rs: seq<Request>, device: DeviceId, store: StoreId): int {
    Total(rs, HeadingFor(device, store))
  }

  /** Active sessions, plus requests about to insert one. */
  function Claims(w: World, device: DeviceId, store: StoreId): int {
    Active(w.sessions, w.now, device, store) + Heading(w.requests, device, store)
  }

  predicate HasActive(ss: seq<Session>, now: int, device: DeviceId, store: StoreId) {
    exists i :: 0 <= i < |ss| && Live(ss[i], now) && At(ss[i], device, store)
  }

  /** The takeover's UPDATE: every active session of the (device, store) is revoked. */
  function RevokeAll(ss: seq<Session>, now: int, device: DeviceId, store: StoreId): (r: seq<Session>)
    ensures |r| == |ss|
    ensures forall i :: 0 <= i < |ss| ==>
      r[i] == if Live(ss[i], now) && At(ss[i], device, store) then ss[i].(revoked := true) else ss[i]
  {
    seq(|ss|, i requires 0 <= i < |ss| =>
      if Live(ss[i], now) && At(ss[i], device, store) then ss[i].(revoked := true) else ss[i])
  }

  /** What storing the event key finds. */
  function KeyPhase(keys: map<(StoreId, EventId), Key>, store: StoreId, user: UserId, event: EventId): Phase {
    if (store, event) !in keys then TakeoverFresh
    else if keys[(store, event)].operator != user then Finished(EventConflict)
    else if keys[(store, event)].session.None? then TakeoverFresh
    else ReplayFound(keys[(store, event)].session.value)
  }

  function KeysAfter(keys: map<(StoreId, EventId), Key>, store: StoreId, user: UserId, event: EventId)
    : map<(StoreId, EventId), Key>
  {
    if (store, event) in keys then keys else keys[(store, event) := Key(user, None)]
  }

  function Fresh(r: Request, event: Option<EventId>, now: int): Session {
    Session(r.device, r.store, r.user, event, false, now + SESSION_TTL)
  }

  function Goto(w: World, q: nat, p: Phase): World
    requires q < |w.requests|
  {
    w.(requests := w.requests[q := w.requests[q].(phase := p)])
  }

  /** A request's next statement. */
  function AdvanceOne(w: World, q: nat): World
    requires q < |w.requests|
  {
    var r := w.requests[q];
    match r.phase
    case SignInReady =>
      Goto(w, q, Finished(SignedIn(|w.sessions|))).(sessions := w.sessions + [Fresh(r, None, w.now)])
    case TakeoverFresh =>
      if !HasActive(w.sessions, w.now, r.device, r.store) then Goto(w, q, Finished(NothingToSupersede))
      else Goto(w, q, TakeoverRevoked).(sessions := RevokeAll(w.sessions, w.now, r.device, r.store))
    case TakeoverRevoked =>
      Goto(w, q, TakeoverIssued(|w.sessions|)).(sessions := w.sessions + [Fresh(r, Some(r.event), w.now)])
    case TakeoverIssued(s) =>
      var key := (r.store, r.event);
      Goto(w, q, Finished(SignedIn(s))).(
        keys := if key in w.keys then w.keys[key := w.keys[key].(session := Some(s))] else w.keys)
    case ReplayFound(s) =>
      Goto(w, q, Finished(if s < |w.sessions| && Live(w.sessions[s], w.now) then Replayed(s) else NothingToSupersede))
    case SignOutReady(s) =>
      if s < |w.sessions| && w.sessions[s].user == r.user && !w.sessions[s].revoked then
        Goto(w, q, Finished(SignedOut)).(sessions := w.sessions[s := w.sessions[s].(revoked := true)])
      else
        Goto(w, q, Finished(SignOutRefused))
    case Finished(_) => w
  }

  function Step(w: World, a: Action): World {
    match a
    case SignIn(device, store, user) =>
      var p := if HasActive(w.sessions, w.now, device, store) then Finished(TakeoverRequired) else SignInReady;
      w.(requests := w.requests + [Request(device, store, user, 0, p)])
    case Takeover(device, store, user, event) =>
      w.(keys := KeysAfter(w.keys, store, user, event),
         requests := w.requests + [Request(device, store, user, event, KeyPhase(w.keys, store, user, event))])
    case SignOut(s, user) =>
      var ok := s < |w.sessions| && w.sessions[s].user == user && Live(w.sessions[s], w.now);
      w.(requests := w.requests + [Request(0, 0, user, 0, if ok then SignOutReady(s) else Finished(SignOutRefused))])
    case Advance(q) => if q < |w.requests| then AdvanceOne(w, q) else w
    case Crash(q) =>
      if q < |w.requests| && !w.requests[q].phase.Finished? then Goto(w, q, Finished(Crashed)) else w
    case Tick(elapsed) => w.(now := w.now + elapsed)
    case Purge(store, event) => w.(keys := w.keys - {(store, event)})
    case TakeoverUnkeyed(device, store, user, event) =>
      w.(keys := w.keys - {(store, event)},
         requests := w.requests + [Request(device, store, user, event, TakeoverFresh)])
  }

  const START: World := World([], map[], [], 0)

  function Run(w: World, acts: seq<Action>): World {
    if |acts| == 0 then w else Step(Run(w, acts[..|acts| - 1]), acts[|acts| - 1])
  }

  // ---- one active session per (device, store) ---------------------------------------------------

  lemma NoneActive(ss: seq<Session>, now: int, device: DeviceId, store: StoreId)
    ensures Active(ss, now, device, store) >= 0
    ensures HasActive(ss, now, device, store) <==> Active(ss, now, device, store) > 0
  {
    var f := LiveAt(now, device, store);
    TotalNonNegative(ss, f);
    if Total(ss, f) > 0 {
      var i := TotalPositive(ss, f);
      assert HasActive(ss, now, device, store);
    } else if HasActive(ss, now, device, store) {
      var i :| 0 <= i < |ss| && Live(ss[i], now) && At(ss[i], device, store);
      TotalAtLeast(ss, i, f);
    }
  }

  /** The takeover's UPDATE leaves none active there and touches no other (device, store). */
  lemma RevokeAllActive(ss: seq<Session>, now: int, device: DeviceId, store: StoreId, d: DeviceId, s: StoreId)
    ensures Active(RevokeAll(ss, now, device, store), now, d, s)
         == if d == device && s == store then 0 else Active(ss, now, d, s)
  {
    var r, f := RevokeAll(ss, now, device, store), LiveAt(now, d, s);
    if d == device && s == store {
      TotalZero(r, f);
    } else {
      TotalMonotone(r, ss, f, f);
      TotalMonotone(ss, r, f, f);
    }
  }

  /** A sign-in that saw no active session. */
  predicate OpensSignIn(w: World, a: Action, device: DeviceId, store: StoreId) {
    a.SignIn? && a.device == device && a.store == store && !HasActive(w.sessions, w.now, device, store)
  }

  lemma AdvanceClaims(w: World, q: nat, device: DeviceId, store: StoreId)
    requires q < |w.requests|
    ensures Claims(AdvanceOne(w, q), device, store) <= Claims(w, device, store)
    ensures Active(AdvanceOne(w, q).sessions, w.now, device, store) >= 0
  {
    hide HasActive, Fresh;
    var r, after := w.requests[q], AdvanceOne(w, q);
    var f, g := LiveAt(w.now, device, store), HeadingFor(device, store);
    TotalUpdate(w.requests, q, after.requests[q], g);
    assert after.requests == w.requests[q := after.requests[q]];
    NoneActive(w.sessions, w.now, r.device, r.store);
    NoneActive(after.sessions, w.now, device, store);
    match r.phase {
      case SignInReady => IssueActive(w, r, None, device, store);
      case TakeoverRevoked => IssueActive(w, r, Some(r.event), device, store);
      case TakeoverFresh => RevokeAllActive(w.sessions, w.now, r.device, r.store, device, store);
      case SignOutReady(s) =>
        if after.sessions != w.sessions { TotalUpdate(w.sessions, s, after.sessions[s], f); }
      case _ =>
    }
  }

  lemma IssueActive(w: World, r: Request, event: Option<EventId>, device: DeviceId, store: StoreId)
    ensures Active(w.sessions + [Fresh(r, event, w.now)], w.now, device, store)
         == Active(w.sessions, w.now, device, store) + if r.device == device && r.store == store then 1 else 0
  {
    TotalSnoc(w.sessions, Fresh(r, event, w.now), LiveAt(w.now, device, store));
  }

  /** Only a sign-in that saw no active session adds a claim, and it adds one. */
  lemma StepClaims(w: World, a: Action, device: DeviceId, store: StoreId)
    ensures Claims(Step(w, a), device, store)
         <= Claims(w, device, store) + if OpensSignIn(w, a, device, store) then 1 else 0
  {
    hide HasActive, AdvanceOne, KeyPhase, KeysAfter, Total;
    var after, g := Step(w, a), HeadingFor(device, store);
    match a {
      case Advance(q) => if q < |w.requests| { AdvanceClaims(w, q, device, store); }
      case Crash(q) =>
        if q < |w.requests| { TotalUpdate(w.requests, q, w.requests[q].(phase := Finished(Crashed)), g); }
      case Tick(elapsed) =>
        TotalMonotone(w.sessions, w.sessions, LiveAt(w.now + elapsed, device, store), LiveAt(w.now, device, store));
      case Takeover(_, _, user, event) =>
        TakeoverHeads(w, a.store, user, event);
        TotalSnoc(w.requests, after.requests[|w.requests|], g);
      case Purge(_, _) =>
      case _ => TotalSnoc(w.requests, after.requests[|w.requests|], g);
    }
  }

  lemma TakeoverHeads(w: World, store: StoreId, user: UserId, event: EventId)
    ensures var p := KeyPhase(w.keys, store, user, event); !p.SignInReady? && !p.TakeoverRevoked?
  {}

  /** A sign-in starts only while nothing is heading for an insert at its (device, store). */
  predicate Quiet(w: World, a: Action) {
    a.SignIn? ==> HasActive(w.sessions, w.now, a.device, a.store) || Heading(w.requests, a.device, a.store) == 0
  }

  predicate AllQuiet(w: World, acts: seq<Action>) {
    |acts| > 0 ==> AllQuiet(w, acts[..|acts| - 1]) && Quiet(Run(w, acts[..|acts| - 1]), acts[|acts| - 1])
  }

  /**
   * In every interleaving of takeovers, sign-outs, expiries, crashes and quiet sign-ins, the
   * active sessions of a (device, store) plus the takeovers and sign-ins about to insert one
   * never exceed one.
   */
  lemma {:induction false} AtMostOneClaim(w: World, acts: seq<Action>, device: DeviceId, store: StoreId)
    requires Claims(w, device, store) <= 1 && AllQuiet(w, acts)
    ensures Claims(Run(w, acts), device, store) <= 1
    ensures Active(Run(w, acts).sessions, Run(w, acts).now, device, store) <= 1
  {
    hide Step, HasActive, Active, Heading;
    if |acts| > 0 {
      var before, a := Run(w, acts[..|acts| - 1]), acts[|acts| - 1];
      AtMostOneClaim(w, acts[..|acts| - 1], device, store);
      StepClaims(before, a, device, store);
      NoneActive(before.sessions, before.now, device, store);
    }
    HeadingCount(Run(w, acts).requests, device, store);
  }

  lemma HeadingCount(rs: seq<Request>, device: DeviceId, store: StoreId)
    ensures Heading(rs, device, store) >= 0
  {
    TotalNonNegative(rs, HeadingFor(device, store));
  }

  /** Whatever quiet run follows, one active session at most. */
  ghost predicate StaysSingle(w: World, device: DeviceId, store: StoreId) {
    forall acts: seq<Action> :: AllQuiet(w, acts) ==>
      Active(Run(w, acts).sessions, Run(w, acts).now, device, store) <= 1
  }

  /**
   * Exactly when a sign-in may pass its check: from any state within the bound, every
   * continuation keeps at most one active session if and only if nothing else was heading
   * for an insert. Otherwise the check is a race and two sessions go active.
   */
  lemma SignInSafeIff(w: World, device: DeviceId, store: StoreId, user: UserId)
    requires Claims(w, device, store) <= 1
    requires OpensSignIn(w, SignIn(device, store, user), device, store)
    ensures StaysSingle(Step(w, SignIn(device, store, user)), device, store) <==>
      Heading(w.requests, device, store) == 0
  {
    var a := SignIn(device, store, user);
    var after := Step(w, a);
    NoneActive(w.sessions, w.now, device, store);
    HeadingCount(w.requests, device, store);
    if Heading(w.requests, device, store) == 0 {
      StepClaims(w, a, device, store);
      forall acts: seq<Action> | AllQuiet(after, acts)
        ensures Active(Run(after, acts).sessions, Run(after, acts).now, device, store) <= 1
      {
        AtMostOneClaim(after, acts, device, store);
      }
    } else {
      var q := TotalPositive(w.requests, HeadingFor(device, store));
      var p := |w.requests|;
      TwoInserts(after, p, q, device, store);
    }
  }

  lemma TwoInserts(w: World, p: nat, q: nat, device: DeviceId, store: StoreId)
    requires p < |w.requests| && q < |w.requests| && p != q
    requires HeadingFor(device, store)(w.requests[p]) == 1 && HeadingFor(device, store)(w.requests[q]) == 1
    ensures !StaysSingle(w, device, store)
  {
    var acts := [Advance(p), Advance(q)];
    var one := Step(w, Advance(p));
    var two := Step(one, Advance(q));
    assert acts[..1] == [Advance(p)] && [Advance(p)][..0] == [];
    assert Run(w, []) == w && Run(w, [Advance(p)]) == one;
    assert AllQuiet(w, [Advance(p)]);
    assert Run(w, acts) == two && AllQuiet(w, acts);
    InsertAdds(w, p, device, store);
    InsertAdds(one, q, device, store);
    NoneActive(w.sessions, w.now, device, store);
  }

  lemma InsertAdds(w: World, q: nat, device: DeviceId, store: StoreId)
    requires q < |w.requests| && HeadingFor(device, store)(w.requests[q]) == 1
    ensures var after := Step(w, Advance(q));
            && after.now == w.now && |after.requests| == |w.requests|
            && (forall p :: 0 <= p < |w.requests| && p != q ==> after.requests[p] == w.requests[p])
            && Active(after.sessions, after.now, device, store) == Active(w.sessions, w.now, device, store) + 1
  {
    var r := w.requests[q];
    IssueActive(w, r, if r.phase.SignInReady? then None else Some(r.event), device, store);
  }

  /** Two sign-ins check before either inserts: two sessions go active. */
  lemma RacingSignInsExample()
    ensures var w := Run(START, [SignIn(0, 0, 1)]);
            Heading(w.requests, 0, 0) == 1 && OpensSignIn(w, SignIn(0, 0, 2), 0, 0)
    ensures var w := Run(START, [SignIn(0, 0, 1), SignIn(0, 0, 2), Advance(0), Advance(1)]);
            Active(w.sessions, w.now, 0, 0) == 2
  {
    var acts := [SignIn(0, 0, 1), SignIn(0, 0, 2), Advance(0), Advance(1)];
    var one := Step(START, SignIn(0, 0, 1));
    var two := Step(one, SignIn(0, 0, 2));
    var three := Step(two, Advance(0));
    assert Run(START, []) == START && acts[..1][..0] == [] && acts[..1] == [SignIn(0, 0, 1)];
    assert acts[..2][..1] == acts[..1] && acts[..3][..2] == acts[..2];
    assert Run(START, acts[..1]) == one && Run(START, acts[..2]) == two && Run(START, acts[..3]) == three;
    assert one.requests == [Request(0, 0, 1, 0, SignInReady)];
    TotalSnoc([], one.requests[0], HeadingFor(0, 0));
    assert [] + [one.requests[0]] == one.requests;
    InsertAdds(two, 0, 0, 0);
    InsertAdds(three, 1, 0, 0);
  }
}
