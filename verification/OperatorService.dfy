/** The operator session service over its tables: one request at a time, statement by statement. */
module OperatorService {
  import opened Basics
  import opened OperatorSessions
  import opened OperatorTakeovers

  class OperatorService {
    var sessions: seq<Session>
    var keys: map<(StoreId, EventId), Key>

    ghost function Tables(now: int): World
      reads this
    {
      World(sessions, keys, [], now)
    }

    method ActiveOperatorSessionExists(device: DeviceId, store: StoreId, now: int) returns (found: bool)
      ensures found <==> HasActive(sessions, now, device, store)
    {
      for i := 0 to |sessions|
        invariant forall j :: 0 <= j < i ==> !(Live(sessions[j], now) && At(sessions[j], device, store))
      {
        if Live(sessions[i], now) && At(sessions[i], device, store) { return true; }
      }
      found := false;
    }

    /** Revokes every active session of the (device, store); answers the first, if any. */
    method RevokeActiveOperatorSession(device: DeviceId, store: StoreId, now: int) returns (first: Option<nat>)
      modifies this`sessions
      ensures sessions == RevokeAll(old(sessions), now, device, store)
      ensures first.Some? <==> HasActive(old(sessions), now, device, store)
      ensures first.Some? ==>
        first.value < |sessions| && !old(sessions)[first.value].revoked && sessions[first.value].revoked
    {
      first := None;
      for i := 0 to |sessions|
        invariant |sessions| == |old(sessions)|
        invariant sessions[..i] == RevokeAll(old(sessions), now, device, store)[..i]
        invariant sessions[i..] == old(sessions)[i..]
        invariant first.None? ==>
          forall j :: 0 <= j < i ==> !(Live(old(sessions)[j], now) && At(old(sessions)[j], device, store))
        invariant first.Some? ==>
          first.value < i && Live(old(sessions)[first.value], now) && At(old(sessions)[first.value], device, store)
      {
        assert sessions[i] == old(sessions)[i];
        if Live(sessions[i], now) && At(sessions[i], device, store) {
          if first.None? { first := Some(i); }
          sessions := sessions[i := sessions[i].(revoked := true)];
        }
      }
    }

    method IssueOperatorSessionRow(device: DeviceId, store: StoreId, user: UserId, event: Option<EventId>, now: int)
      returns (id: nat)
      modifies this`sessions
      ensures id == |old(sessions)|
      ensures sessions == old(sessions) + [Session(device, store, user, event, false, now + SESSION_TTL)]
    {
      id := |sessions|;
      sessions := sessions + [Session(device, store, user, event, false, now + SESSION_TTL)];
    }

    /** INSERT of the event's key, or what the row already there says; `deleted` if that row goes before it is read. */
    method UpsertTakeoverIdempotencyKey(store: StoreId, user: UserId, event: EventId, deleted: bool)
      returns (found: Phase)
      modifies this`keys
      ensures var lost := deleted && (store, event) in old(keys);
              && found == (if lost then TakeoverFresh else KeyPhase(old(keys), store, user, event))
              && keys == if lost then old(keys) - {(store, event)} else KeysAfter(old(keys), store, user, event)
    {
      var k := (store, event);
      if k !in keys {
        keys := keys[k := Key(user, None)];
        return TakeoverFresh;
      }
      if deleted {
        keys := keys - {k};
        return TakeoverFresh;
      }
      if keys[k].operator != user { return Finished(EventConflict); }
      var session := keys[k].session;
      if session.None? { return TakeoverFresh; }
      found := ReplayFound(session.value);
    }

    method SignIn(device: DeviceId, store: StoreId, user: UserId, now: int) returns (reply: Reply)
      modifies this
      ensures var after := Step(Step(old(Tables(now)), OperatorSessions.SignIn(device, store, user)), Advance(0));
              sessions == after.sessions && keys == after.keys && after.requests[0].phase == Finished(reply)
    {
      var active := ActiveOperatorSessionExists(device, store, now);
      if active { return TakeoverRequired; }
      var id := IssueOperatorSessionRow(device, store, user, None, now);
      reply := SignedIn(id);
    }

    method SignOut(session: nat, user: UserId, now: int) returns (reply: Reply)
      modifies this
      ensures var after := Step(Step(old(Tables(now)), OperatorSessions.SignOut(session, user)), Advance(0));
              sessions == after.sessions && keys == after.keys && after.requests[0].phase == Finished(reply)
    {
      if session >= |sessions| { return SignOutRefused; }
      var row := sessions[session];
      if row.user != user { return SignOutRefused; }
      if row.revoked { return SignOutRefused; }
      if row.expiresAt <= now { return SignOutRefused; }
      sessions := sessions[session := row.(revoked := true)];
      reply := SignedOut;
    }

    method ConfirmTakeover(device: DeviceId, store: StoreId, user: UserId, event: EventId, now: int)
      returns (reply: Reply)
      modifies this
      ensures var after := TakeoverAlone(old(Tables(now)), device, store, user, event);
              sessions == after.sessions && keys == after.keys && after.requests[0].phase == Finished(reply)
    {
      hide TakeoverAlone, HasActive, RevokeAll;
      TakeoverAloneIff(Tables(now), device, store, user, event);
      ghost var after := TakeoverAlone(Tables(now), device, store, user, event);
      var check := UpsertTakeoverIdempotencyKey(store, user, event, false);
      if check.Finished? { return EventConflict; }
      if check.ReplayFound? {
        var original := check.session;
        if original >= |sessions| || sessions[original].revoked || sessions[original].expiresAt <= now {
          return NothingToSupersede;
        }
        return Replayed(original);
      }
      var revoked := RevokeActiveOperatorSession(device, store, now);
      if revoked.None? {
        NoneRevoked(old(sessions), device, store, now);
        return NothingToSupersede;
      }
      var id := IssueOperatorSessionRow(device, store, user, Some(event), now);
      keys := keys[(store, event) := keys[(store, event)].(session := Some(id))];
      reply := SignedIn(id);
    }
  }

  lemma NoneRevoked(ss: seq<Session>, device: DeviceId, store: StoreId, now: int)
    requires !HasActive(ss, now, device, store)
    ensures RevokeAll(ss, now, device, store) == ss
  {}
}
