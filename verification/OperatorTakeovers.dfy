/** One session per takeover event: what the idempotency key of a takeover does and does not guarantee. */
module OperatorTakeovers {
  import opened Basics
  import opened OperatorSessions

  /** A takeover between storing its key and recording its session there. */
  predicate Mid(r: Request) { r.phase.TakeoverFresh? || r.phase.TakeoverRevoked? || r.phase.TakeoverIssued? }

  function KeyOf(r: Request): (StoreId, EventId) { (r.store, r.event) }

  /** No two sessions were minted by one (store, event). */
  predicate MintedOnce(ss: seq<Session>) {
    forall i, j :: 0 <= i < j < |ss| && ss[i].event.Some? && ss[i].store == ss[j].store ==> ss[i].event != ss[j].event
  }

  /**
   * What the deployment guarantees. `serial`: takeovers with one event id do not overlap.
   * `recordsLand`: a takeover that inserted its session goes on to record it in the key.
   * `keysStay`: no key row is deleted.
   */
  datatype Config = Config(serial: bool, recordsLand: bool, keysStay: bool) {
    predicate Sound() { serial && recordsLand && keysStay }
  }

  predicate Deletes(a: Action) { a.Purge? || a.TakeoverUnkeyed? }

  predicate Allowed(c: Config, w: World, a: Action) {
    match a
    case Takeover(_, store, _, event) =>
      c.serial ==> forall q :: 0 <= q < |w.requests| && Mid(w.requests[q]) ==> KeyOf(w.requests[q]) != (store, event)
    case Crash(q) => c.recordsLand && q < |w.requests| ==> !w.requests[q].phase.TakeoverIssued?
    case _ => c.keysStay ==> !Deletes(a)
  }

  predicate AllAllowed(c: Config, w: World, acts: seq<Action>) {
    |acts| > 0 ==>
      && AllAllowed(c, w, acts[..|acts| - 1])
      && Allowed(c, Run(w, acts[..|acts| - 1]), acts[|acts| - 1])
  }

  // ---- the invariant ------------------------------------------------------------------------------

  /** A takeover under way owns its key, and the key has no session yet. */
  predicate MidOwns(w: World) {
    && (forall q :: 0 <= q < |w.requests| && Mid(w.requests[q]) ==>
          var r := w.requests[q];
          KeyOf(r) in w.keys && w.keys[KeyOf(r)] == Key(r.user, None))
    && (forall p, q :: 0 <= p < q < |w.requests| && Mid(w.requests[p]) && Mid(w.requests[q]) ==>
          KeyOf(w.requests[p]) != KeyOf(w.requests[q]))
  }

  /** A minted session belongs to its event's first operator and is, or is about to be, recorded. */
  predicate Minted(w: World, i: nat)
    requires i < |w.sessions|
  {
    var s := w.sessions[i];
    s.event.Some? ==>
      var k := (s.store, s.event.value);
      && k in w.keys && w.keys[k].operator == s.user
      && (|| w.keys[k].session == Some(i)
          || exists q :: 0 <= q < |w.requests| && w.requests[q].phase == TakeoverIssued(i) && KeyOf(w.requests[q]) == k)
  }

  predicate IssuedIsThere(w: World, r: Request) {
    r.phase.TakeoverIssued? ==>
      var i := r.phase.session;
      i < |w.sessions| && w.sessions[i].store == r.store && w.sessions[i].user == r.user &&
      w.sessions[i].event == Some(r.event)
  }

  predicate RecordIsThere(w: World, k: (StoreId, EventId))
    requires k in w.keys
  {
    w.keys[k].session.Some? ==>
      var i := w.keys[k].session.value;
      i < |w.sessions| && w.sessions[i].store == k.0 && w.sessions[i].user == w.keys[k].operator &&
      w.sessions[i].event == Some(k.1)
  }

  ghost predicate Inv(w: World) {
    && MidOwns(w)
    && (forall i :: 0 <= i < |w.sessions| ==> Minted(w, i))
    && (forall q :: 0 <= q < |w.requests| ==> IssuedIsThere(w, w.requests[q]))
    && (forall k :: k in w.keys ==> RecordIsThere(w, k))
  }

  /** Everything about a session but whether it is revoked stays. */
  predicate SameRows(a: seq<Session>, b: seq<Session>) {
    |a| <= |b| && forall i :: 0 <= i < |a| ==> b[i] == a[i] || b[i] == a[i].(revoked := true)
  }

  lemma RowsStay(w: World, a: Action)
    ensures SameRows(w.sessions, Step(w, a).sessions)
    ensures Step(w, a).now >= w.now
  {}

  /** One statement moves one request, and only toward recording or giving up. */
  lemma Moves(w: World, a: Action)
    requires !Deletes(a)
    ensures var after := Step(w, a);
            && |w.requests| <= |after.requests| <= |w.requests| + 1
            && (forall q :: 0 <= q < |w.requests| ==>
                  && after.requests[q] == w.requests[q].(phase := after.requests[q].phase)
                  && (after.requests[q] != w.requests[q] ==> (a.Advance? || a.Crash?) && a.q == q)
                  && (Mid(after.requests[q]) ==> Mid(w.requests[q])))
            && (|after.requests| > |w.requests| && Mid(after.requests[|w.requests|]) ==>
                  && a.Takeover?
                  && after.requests[|w.requests|] == Request(a.device, a.store, a.user, a.event, TakeoverFresh)
                  && (a.store, a.event) in after.keys && after.keys[(a.store, a.event)] == Key(a.user, None))
  {
    hide HasActive, RevokeAll, Fresh;
  }

  /** Keys appear with their first operator and no session, and gain the session their takeover inserted. */
  lemma KeyMoves(w: World, a: Action, k: (StoreId, EventId))
    requires !Deletes(a)
    ensures var after := Step(w, a);
            && (k in w.keys ==> k in after.keys && after.keys[k].operator == w.keys[k].operator)
            && (k in w.keys && after.keys[k] != w.keys[k] ==>
                  && a.Advance? && a.q < |w.requests| && KeyOf(w.requests[a.q]) == k
                  && w.requests[a.q].phase == TakeoverIssued(after.keys[k].session.UnwrapOr(0))
                  && after.keys[k].session.Some? && Mid(w.requests[a.q]) && !Mid(after.requests[a.q]))
            && (k !in w.keys && k in after.keys ==>
                  a.Takeover? && k == (a.store, a.event) && after.keys[k] == Key(a.user, None))
  {
    hide HasActive, RevokeAll, Fresh;
  }

  lemma MidOwnsStays(c: Config, w: World, a: Action)
    requires Inv(w) && Allowed(c, w, a) && c.serial && c.keysStay
    ensures MidOwns(Step(w, a))
  {
    hide Step, Minted, IssuedIsThere, RecordIsThere, Mid;
    Moves(w, a);
    var after := Step(w, a);
    forall q | 0 <= q < |after.requests| && Mid(after.requests[q])
      ensures var r := after.requests[q];
              KeyOf(r) in after.keys && after.keys[KeyOf(r)] == Key(r.user, None)
    {
      KeyMoves(w, a, KeyOf(after.requests[q]));
    }
  }

  /** A request's move out of the takeover path leaves every other takeover where it was. */
  lemma MintedStays(c: Config, w: World, a: Action)
    requires Inv(w) && Allowed(c, w, a) && c.recordsLand && c.keysStay
    ensures forall i :: 0 <= i < |Step(w, a).sessions| ==> Minted(Step(w, a), i)
  {
    hide HasActive, IssuedIsThere, RecordIsThere;
    RowsStay(w, a);
    var after := Step(w, a);
    forall i | 0 <= i < |after.sessions| ensures Minted(after, i) {
      if i < |w.sessions| { assert Minted(w, i); MintedOneStays(c, w, a, i); } else { NewlyMinted(w, a); }
    }
  }

  lemma MintedOneStays(c: Config, w: World, a: Action, i: nat)
    requires Inv(w) && Allowed(c, w, a) && c.recordsLand && c.keysStay && i < |w.sessions| && Minted(w, i)
    ensures i < |Step(w, a).sessions| && Minted(Step(w, a), i)
  {
    hide Step, HasActive, IssuedIsThere, RecordIsThere;
    RowsStay(w, a);
    var s, after := w.sessions[i], Step(w, a);
    if s.event.Some? {
      var k := (s.store, s.event.value);
      KeyMoves(w, a, k);
      Moves(w, a);
      if w.keys[k].session != Some(i) {
        var q :| 0 <= q < |w.requests| && w.requests[q].phase == TakeoverIssued(i) && KeyOf(w.requests[q]) == k;
        if a == Advance(q) { Records(w, q); }
        assert after.requests[q] == w.requests[q] || after.keys[k].session == Some(i);
      }
    }
  }

  lemma Records(w: World, q: nat)
    requires q < |w.requests| && w.requests[q].phase.TakeoverIssued? && KeyOf(w.requests[q]) in w.keys
    ensures Step(w, Advance(q)).keys
         == w.keys[KeyOf(w.requests[q]) := w.keys[KeyOf(w.requests[q])].(session := Some(w.requests[q].phase.session))]
  {}

  lemma NewlyMinted(w: World, a: Action)
    requires !Deletes(a)
    requires Inv(w) && |Step(w, a).sessions| > |w.sessions|
    ensures |Step(w, a).sessions| == |w.sessions| + 1 && Minted(Step(w, a), |w.sessions|)
  {
    hide HasActive, IssuedIsThere, RecordIsThere, Minted;
    var after, n := Step(w, a), |w.sessions|;
    var s := after.sessions[n];
    if s.event.Some? {
      assert Mid(w.requests[a.q]) && after.requests[a.q].phase == TakeoverIssued(n);
      assert KeyOf(after.requests[a.q]) == (s.store, s.event.value) && after.keys == w.keys;
      IsMinted(after, n, a.q);
    } else {
      NotByEvent(after, n);
    }
  }

  lemma IsMinted(w: World, i: nat, q: nat)
    requires i < |w.sessions| && q < |w.requests| && w.requests[q].phase == TakeoverIssued(i)
    requires w.sessions[i].event.Some? && KeyOf(w.requests[q]) == (w.sessions[i].store, w.sessions[i].event.value)
    requires KeyOf(w.requests[q]) in w.keys && w.keys[KeyOf(w.requests[q])].operator == w.sessions[i].user
    ensures Minted(w, i)
  {}

  lemma NotByEvent(w: World, i: nat)
    requires i < |w.sessions| && w.sessions[i].event.None?
    ensures Minted(w, i)
  {}

  lemma IssuedStays(w: World, a: Action, q: nat)
    requires !Deletes(a)
    requires Inv(w) && q < |Step(w, a).requests|
    ensures IssuedIsThere(Step(w, a), Step(w, a).requests[q])
  {
    hide HasActive, Minted, RecordIsThere, MidOwns;
    RowsStay(w, a);
    Moves(w, a);
    if q < |w.requests| { assert IssuedIsThere(w, w.requests[q]); }
  }

  lemma RecordStays(w: World, a: Action, k: (StoreId, EventId))
    requires !Deletes(a)
    requires Inv(w) && k in Step(w, a).keys
    ensures RecordIsThere(Step(w, a), k)
  {
    hide Step, HasActive, Minted;
    RowsStay(w, a);
    KeyMoves(w, a, k);
    if k in w.keys {
      assert RecordIsThere(w, k);
      if Step(w, a).keys[k] != w.keys[k] { assert IssuedIsThere(w, w.requests[a.q]); }
    }
  }

  lemma NothingDeleted(c: Config, w: World, a: Action)
    requires Allowed(c, w, a) && c.keysStay
    ensures !Deletes(a)
  {}

  lemma StepKeeps(c: Config, w: World, a: Action)
    requires Inv(w) && Allowed(c, w, a) && c.Sound()
    ensures Inv(Step(w, a))
  {
    hide Step, Minted, IssuedIsThere, RecordIsThere, MidOwns, Allowed;
    NothingDeleted(c, w, a);
    MidOwnsStays(c, w, a);
    MintedStays(c, w, a);
    var after := Step(w, a);
    forall q | 0 <= q < |after.requests| ensures IssuedIsThere(after, after.requests[q]) { IssuedStays(w, a, q); }
    forall k | k in after.keys ensures RecordIsThere(after, k) { RecordStays(w, a, k); }
  }

  lemma {:induction false} RunKeeps(c: Config, w: World, acts: seq<Action>)
    requires Inv(w) && AllAllowed(c, w, acts) && c.Sound()
    ensures Inv(Run(w, acts))
  {
    hide Inv, Step, Allowed;
    if |acts| > 0 {
      RunKeeps(c, w, acts[..|acts| - 1]);
      StepKeeps(c, Run(w, acts[..|acts| - 1]), acts[|acts| - 1]);
    }
  }

  /** One session per event, and always for the event's first operator. */
  lemma InvMintsOnce(w: World)
    requires Inv(w)
    ensures MintedOnce(w.sessions)
    ensures forall i :: 0 <= i < |w.sessions| && w.sessions[i].event.Some? ==>
      var k := (w.sessions[i].store, w.sessions[i].event.value);
      k in w.keys && w.keys[k].operator == w.sessions[i].user
  {
    forall i, j | 0 <= i < j < |w.sessions| && w.sessions[i].event.Some? && w.sessions[i].store == w.sessions[j].store
      ensures w.sessions[i].event != w.sessions[j].event
    {
      assert Minted(w, i) && Minted(w, j);
    }
    forall i | 0 <= i < |w.sessions| && w.sessions[i].event.Some?
      ensures var k := (w.sessions[i].store, w.sessions[i].event.value);
              k in w.keys && w.keys[k].operator == w.sessions[i].user
    {
      assert Minted(w, i);
    }
  }

  /**
   * Once a takeover's session is recorded, whatever follows: the record never changes, so a
   * replay by the same operator always finds that session, another operator always gets a
   * conflict, and a session that was revoked or expired never comes back.
   */
  lemma {:induction false} ReplaysForever(c: Config, w: World, acts: seq<Action>, k: (StoreId, EventId), user: UserId)
    requires Inv(w) && AllAllowed(c, w, acts) && c.Sound()
    requires k in w.keys && w.keys[k].session.Some?
    ensures var after, i := Run(w, acts), w.keys[k].session.value;
            && k in after.keys && after.keys[k] == w.keys[k]
            && KeyPhase(after.keys, k.0, user, k.1)
               == (if user == w.keys[k].operator then ReplayFound(i) else Finished(EventConflict))
            && i < |w.sessions| <= |after.sessions|
            && (!Live(w.sessions[i], w.now) ==> !Live(after.sessions[i], after.now))
  {
    hide Step, Allowed, Minted, IssuedIsThere, MidOwns;
    assert RecordIsThere(w, k);
    if |acts| > 0 {
      var before, a := Run(w, acts[..|acts| - 1]), acts[|acts| - 1];
      ReplaysForever(c, w, acts[..|acts| - 1], k, user);
      RunKeeps(c, w, acts[..|acts| - 1]);
      NothingDeleted(c, before, a);
      RecordedStays(before, a, k);
      RowsStay(before, a);
    }
  }

  lemma RecordedStays(w: World, a: Action, k: (StoreId, EventId))
    requires !Deletes(a)
    requires Inv(w) && k in w.keys && w.keys[k].session.Some?
    ensures k in Step(w, a).keys && Step(w, a).keys[k] == w.keys[k]
  {
    hide Step, Minted, IssuedIsThere, RecordIsThere;
    KeyMoves(w, a, k);
  }

  // ---- exactly which deployments mint once ---------------------------------------------------------

  ghost predicate AllRunsMintOnce(c: Config) {
    forall acts: seq<Action> :: AllAllowed(c, START, acts) ==> MintedOnce(Run(START, acts).sessions)
  }

  ghost predicate Reached(c: Config, acts: seq<Action>, w: World) {
    AllAllowed(c, START, acts) && Run(START, acts) == w
  }

  lemma Extend(c: Config, acts: seq<Action>, w: World, a: Action) returns (more: seq<Action>, next: World)
    requires Reached(c, acts, w) && Allowed(c, w, a)
    ensures next == Step(w, a) && Reached(c, more, next)
  {
    more, next := acts + [a], Step(w, a);
    assert more[..|more| - 1] == acts;
  }

  /** One operator is signed in. */
  lemma ReachSignedIn(c: Config) returns (acts: seq<Action>, w: World)
    ensures Reached(c, acts, w) && w.keys == map[] && w.now == 0
    ensures w.sessions == [Session(0, 0, 7, None, false, SESSION_TTL)]
    ensures w.requests == [Request(0, 0, 7, 0, Finished(SignedIn(0)))]
  {
    assert Reached(c, [], START);
    acts, w := Extend(c, [], START, SignIn(0, 0, 7));
    acts, w := Extend(c, acts, w, Advance(0));
  }

  /** A takeover that finds an active session revokes it and inserts its own. */
  lemma Supersede(c: Config, acts: seq<Action>, w: World, q: nat) returns (more: seq<Action>, next: World)
    requires Reached(c, acts, w) && q < |w.requests| && w.requests[q].phase.TakeoverFresh?
    requires HasActive(w.sessions, w.now, w.requests[q].device, w.requests[q].store)
    ensures Reached(c, more, next)
    ensures var r := w.requests[q];
            && next.keys == w.keys && next.now == w.now
            && next.sessions == RevokeAll(w.sessions, w.now, r.device, r.store) + [Fresh(r, Some(r.event), w.now)]
            && next.requests == w.requests[q := r.(phase := TakeoverIssued(|w.sessions|))]
  {
    hide Reached, HasActive;
    more, next := Extend(c, acts, w, Advance(q));
    more, next := Extend(c, more, next, Advance(q));
  }

  lemma NotMintedOnce(ss: seq<Session>, i: nat, j: nat)
    requires i < j < |ss| && ss[i].event.Some? && ss[i].store == ss[j].store && ss[i].event == ss[j].event
    ensures !MintedOnce(ss)
  {}

  lemma SeesActive(ss: seq<Session>, i: nat, now: int)
    requires i < |ss| && Live(ss[i], now)
    ensures HasActive(ss, now, ss[i].device, ss[i].store)
  {
    assert At(ss[i], ss[i].device, ss[i].store);
  }

  /** Two submissions of one event both find the key without a session: both mint. */
  lemma TwiceWithoutSerial(c: Config)
    requires !c.serial
    ensures !AllRunsMintOnce(c)
  {
    hide Reached, HasActive;
    var acts, w := ReachSignedIn(c);
    acts, w := Extend(c, acts, w, Takeover(0, 0, 1, 5));
    acts, w := Extend(c, acts, w, Takeover(0, 0, 1, 5));
    SeesActive(w.sessions, 0, 0);
    acts, w := Supersede(c, acts, w, 1);
    SeesActive(w.sessions, 1, 0);
    acts, w := Supersede(c, acts, w, 2);
    NotMintedOnce(w.sessions, 1, 2);
    Refutes(c, acts, w);
  }

  lemma Refutes(c: Config, acts: seq<Action>, w: World)
    requires Reached(c, acts, w) && !MintedOnce(w.sessions)
    ensures !AllRunsMintOnce(c)
  {}

  /** The process stops between the insert and the key update: the retry mints again. */
  lemma TwiceWithoutRecord(c: Config)
    requires !c.recordsLand
    ensures !AllRunsMintOnce(c)
  {
    hide Reached, HasActive;
    var acts, w := ReachSignedIn(c);
    acts, w := Extend(c, acts, w, Takeover(0, 0, 1, 5));
    SeesActive(w.sessions, 0, 0);
    acts, w := Supersede(c, acts, w, 1);
    acts, w := Extend(c, acts, w, Crash(1));
    acts, w := Extend(c, acts, w, Takeover(0, 0, 1, 5));
    SeesActive(w.sessions, 1, 0);
    acts, w := Supersede(c, acts, w, 2);
    NotMintedOnce(w.sessions, 1, 2);
    Refutes(c, acts, w);
  }

  /** The key is deleted after the takeover: the retry mints again. */
  lemma TwiceWithoutKey(c: Config)
    requires !c.keysStay
    ensures !AllRunsMintOnce(c)
  {
    hide Reached, HasActive;
    var acts, w := ReachSignedIn(c);
    acts, w := Extend(c, acts, w, Takeover(0, 0, 1, 5));
    SeesActive(w.sessions, 0, 0);
    acts, w := Supersede(c, acts, w, 1);
    acts, w := Extend(c, acts, w, Advance(1));
    acts, w := Extend(c, acts, w, Purge(0, 5));
    acts, w := Extend(c, acts, w, Takeover(0, 0, 1, 5));
    SeesActive(w.sessions, 1, 0);
    acts, w := Supersede(c, acts, w, 2);
    NotMintedOnce(w.sessions, 1, 2);
    Refutes(c, acts, w);
  }

  /**
   * Each event mints at most one session in every run exactly when takeovers with one event
   * id never overlap, an inserted session is always recorded, and no key is deleted.
   */
  lemma MintsOnceIff(c: Config)
    ensures AllRunsMintOnce(c) <==> c.serial && c.recordsLand && c.keysStay
  {
    if !c.serial {
      TwiceWithoutSerial(c);
    } else if !c.recordsLand {
      TwiceWithoutRecord(c);
    } else if !c.keysStay {
      TwiceWithoutKey(c);
    } else {
      forall acts: seq<Action> | AllAllowed(c, START, acts) ensures MintedOnce(Run(START, acts).sessions) {
        RunKeeps(c, START, acts);
        InvMintsOnce(Run(START, acts));
      }
    }
  }

  // ---- one takeover with nobody interleaved ---------------------------------------------------------

  /** A takeover's statements one after the other. */
  function TakeoverAlone(w: World, device: DeviceId, store: StoreId, user: UserId, event: EventId): World {
    var q := |w.requests|;
    AdvanceTwice(AdvanceTwice(Step(w, Takeover(device, store, user, event)), q), q)
  }

  function AdvanceTwice(w: World, q: nat): World { Step(Step(w, Advance(q)), Advance(q)) }

  lemma AnsweredStays(w: World, q: nat)
    requires q < |w.requests| && w.requests[q].phase.Finished?
    ensures AdvanceTwice(w, q) == w
  {}

  /** From a fresh key: nothing to supersede, or revoke, insert and record. */
  lemma FreshFinishes(w: World, q: nat)
    requires q < |w.requests| && w.requests[q].phase.TakeoverFresh? && KeyOf(w.requests[q]) in w.keys
    ensures var r, n := w.requests[q], |w.sessions|;
            AdvanceTwice(AdvanceTwice(w, q), q) ==
            if !HasActive(w.sessions, w.now, r.device, r.store) then Goto(w, q, Finished(NothingToSupersede))
            else Goto(w, q, Finished(SignedIn(n))).(
              sessions := RevokeAll(w.sessions, w.now, r.device, r.store) + [Fresh(r, Some(r.event), w.now)],
              keys := w.keys[KeyOf(r) := w.keys[KeyOf(r)].(session := Some(n))])
  {
    hide HasActive, RevokeAll;
    var r, n, one := w.requests[q], |w.sessions|, Step(w, Advance(q));
    if HasActive(w.sessions, w.now, r.device, r.store) {
      var two := Step(one, Advance(q));
      var three := Step(two, Advance(q));
      assert three.requests == w.requests[q := r.(phase := Finished(SignedIn(n)))];
      assert Step(three, Advance(q)) == three;
    } else {
      assert Step(one, Advance(q)) == one;
      AnsweredStays(one, q);
    }
  }

  /** A replay reads its session once; an answer is final. */
  lemma OtherFinishes(w: World, q: nat)
    requires q < |w.requests| && (w.requests[q].phase.Finished? || w.requests[q].phase.ReplayFound?)
    ensures AdvanceTwice(AdvanceTwice(w, q), q) == Step(w, Advance(q))
  {
    var one := Step(w, Advance(q));
    assert Step(one, Advance(q)) == one;
    AnsweredStays(one, q);
  }

  /** The request's answer: it mints exactly when its event has not minted and a session is active. */
  lemma TakeoverAloneIff(w: World, device: DeviceId, store: StoreId, user: UserId, event: EventId)
    ensures var k, after := (store, event), TakeoverAlone(w, device, store, user, event);
            var r, key := after.requests[|w.requests|], if k in w.keys then w.keys[k] else Key(user, None);
            && |after.requests| == |w.requests| + 1 && r.phase.Finished?
            && (r.phase.reply == EventConflict <==> key.operator != user)
            && (r.phase.reply.SignedIn? <==>
                  key == Key(user, None) && HasActive(w.sessions, w.now, device, store))
            && (r.phase.reply.Replayed? <==>
                  && key.operator == user && key.session.Some? && key.session.value < |w.sessions|
                  && !w.sessions[key.session.value].revoked && w.sessions[key.session.value].expiresAt > w.now)
            && (r.phase.reply.Replayed? ==> r.phase.reply.session == key.session.value)
            && (if r.phase.reply.SignedIn? then
                  && r.phase.reply.session == |w.sessions|
                  && after.keys == w.keys[k := Key(user, Some(|w.sessions|))]
                  && after.sessions == RevokeAll(w.sessions, w.now, device, store)
                                       + [Session(device, store, user, Some(event), false, w.now + SESSION_TTL)]
                else
                  && after.sessions == w.sessions && after.keys == w.keys[k := key]
                  && (r.phase.reply in {EventConflict, NothingToSupersede} || r.phase.reply.Replayed?))
  {
    hide HasActive, RevokeAll, AdvanceTwice;
    var started, q := Step(w, Takeover(device, store, user, event)), |w.requests|;
    assert (store, event) in w.keys ==> w.keys[(store, event) := w.keys[(store, event)]] == w.keys;
    if started.requests[q].phase.TakeoverFresh? { FreshFinishes(started, q); } else { OtherFinishes(started, q); }
  }

  /** Active means not revoked and not past its expiry, at that device and store. */
  lemma ActiveMeans(ss: seq<Session>, now: int, device: DeviceId, store: StoreId)
    ensures HasActive(ss, now, device, store) <==>
      exists i :: 0 <= i < |ss| && ss[i].device == device && ss[i].store == store
                  && !ss[i].revoked && ss[i].expiresAt > now
    ensures forall i :: 0 <= i < |ss| ==>
      RevokeAll(ss, now, device, store)[i] ==
      ss[i].(revoked := ss[i].revoked || (ss[i].device == device && ss[i].store == store && ss[i].expiresAt > now))
  {
    if i :| 0 <= i < |ss| && ss[i].device == device && ss[i].store == store && !ss[i].revoked && ss[i].expiresAt > now {
      assert Live(ss[i], now) && At(ss[i], device, store);
    }
  }

  // ---- one sign-in, one sign-out ----------------------------------------------------------------------

  function SignInAlone(w: World, device: DeviceId, store: StoreId, user: UserId): World {
    Step(Step(w, SignIn(device, store, user)), Advance(|w.requests|))
  }

  /** A sign-in is refused exactly while a session is active there; otherwise it adds one, for eight hours. */
  lemma SignInAloneIff(w: World, device: DeviceId, store: StoreId, user: UserId)
    ensures var after, n := SignInAlone(w, device, store, user), |w.sessions|;
            var active := exists i :: 0 <= i < n && w.sessions[i].device == device && w.sessions[i].store == store &&
                                      !w.sessions[i].revoked && w.sessions[i].expiresAt > w.now;
            && |after.requests| == |w.requests| + 1 && after.keys == w.keys
            && after.requests[|w.requests|].phase == Finished(if active then TakeoverRequired else SignedIn(n))
            && after.sessions == w.sessions +
               if active then [] else [Session(device, store, user, None, false, w.now + 28_800_000)]
  {
    hide HasActive;
    ActiveMeans(w.sessions, w.now, device, store);
  }

  function SignOutAlone(w: World, session: nat, user: UserId): World {
    Step(Step(w, SignOut(session, user)), Advance(|w.requests|))
  }

  /** A sign-out is accepted exactly for the user's own live session, and then revokes that row alone. */
  lemma SignOutAloneIff(w: World, session: nat, user: UserId)
    ensures var after := SignOutAlone(w, session, user);
            var own := session < |w.sessions| && w.sessions[session].user == user &&
                       !w.sessions[session].revoked && w.sessions[session].expiresAt > w.now;
            && |after.requests| == |w.requests| + 1 && after.keys == w.keys
            && after.requests[|w.requests|].phase == Finished(if own then SignedOut else SignOutRefused)
            && |after.sessions| == |w.sessions|
            && (own ==> after.sessions[session] == w.sessions[session].(revoked := true))
            && forall i :: 0 <= i < |w.sessions| && !(own && i == session) ==> after.sessions[i] == w.sessions[i]
  {}

  /** Whoever is interleaved: the statement that answers SignedOut revokes a session of that user. */
  lemma SignedOutRevokes(w: World, q: nat)
    requires q < |w.requests| && w.requests[q].phase.SignOutReady?
    requires Step(w, Advance(q)).requests[q].phase == Finished(SignedOut)
    ensures var s := w.requests[q].phase.session;
            && s < |w.sessions| && w.sessions[s].user == w.requests[q].user
            && s < |Step(w, Advance(q)).sessions| && Step(w, Advance(q)).sessions[s].revoked
  {}

  /** A revoked session stays revoked through every continuation. */
  lemma {:induction false} RevokedForever(w: World, acts: seq<Action>, s: nat)
    requires s < |w.sessions| && w.sessions[s].revoked
    ensures s < |Run(w, acts).sessions| && Run(w, acts).sessions[s] == w.sessions[s]
  {
    hide Step;
    if |acts| > 0 {
      RevokedForever(w, acts[..|acts| - 1], s);
      RowsStay(Run(w, acts[..|acts| - 1]), acts[|acts| - 1]);
    }
  }

  /** A session answered SignedOut is never active again. */
  lemma SignedOutForever(w: World, q: nat, acts: seq<Action>)
    requires q < |w.requests| && w.requests[q].phase.SignOutReady?
    requires Step(w, Advance(q)).requests[q].phase == Finished(SignedOut)
    ensures var s, after := w.requests[q].phase.session, Run(Step(w, Advance(q)), acts);
            s < |after.sessions| && after.sessions[s].revoked
  {
    hide Step;
    SignedOutRevokes(w, q);
    RevokedForever(Step(w, Advance(q)), acts, w.requests[q].phase.session);
  }
}
