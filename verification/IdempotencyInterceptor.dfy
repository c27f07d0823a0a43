/**
 * The interceptor's shared state in the source's own form: the marker, the store with its
 * Redis primary and database mirror, and one request handled from start to end.
 */
module IdempotencyInterceptor {
  import opened Basics
  import opened Idempotency

  // ---- the request header ----------------------------------------------------------------

  predicate PrintableNoSpace(c: char) { '!' <= c <= '~' }

  /** `/^[\x21-\x7E]{16,128}$/` */
  predicate GoodKey(key: string) {
    16 <= |key| <= 128 && forall i :: 0 <= i < |key| ==> PrintableNoSpace(key[i])
  }

  /** An absent header and an empty one are both missing. */
  predicate Missing(key: Option<string>) { key.None? || key.value == "" }

  function ComposeTuple(method': string, routePath: string, clientId: string, headerKey: string): string {
    method' + ":" + routePath + ":" + clientId + ":" + headerKey
  }

  lemma {:induction false} SplitAtFirst(a: string, b: string, x: string, y: string)
    requires a + ":" + x == b + ":" + y
    requires ':' !in a && ':' !in b
    ensures a == b && x == y
  {
    var s := a + ":" + x;
    assert s[|a|] == ':' && s[|b|] == ':';
    assert forall i :: 0 <= i < |a| ==> s[i] == a[i] != ':';
    assert forall i :: 0 <= i < |b| ==> s[i] == b[i] != ':';
    assert |a| == |b|;
    assert a == s[..|a|] == b;
    assert x == s[|a| + 1..] == y;
  }

  /**
   * On one route the tuple identifies the caller and the key, since a client id carries no
   * colon; the key itself may carry any.
   */
  lemma TupleInjectiveOnRoute(m: string, route: string, c: string, k: string, c': string, k': string)
    requires ':' !in c && ':' !in c'
    ensures ComposeTuple(m, route, c, k) == ComposeTuple(m, route, c', k') <==> c == c' && k == k'
  {
    var prefix := m + ":" + route + ":";
    assert ComposeTuple(m, route, c, k) == prefix + (c + ":" + k);
    assert ComposeTuple(m, route, c', k') == prefix + (c' + ":" + k');
    if ComposeTuple(m, route, c, k) == ComposeTuple(m, route, c', k') {
      assert (prefix + (c + ":" + k))[|prefix|..] == c + ":" + k;
      assert (prefix + (c' + ":" + k'))[|prefix|..] == c' + ":" + k';
      SplitAtFirst(c, c', k, k');
    }
  }

  // ---- the store ------------------------------------------------------------------------

  datatype Timed = Timed(entry: Entry, expiresAt: int)

  /** Redis first; only a Redis miss reads the mirror; an expired entry is a miss. */
  function Current(redis: map<Tenant, Timed>, mirror: map<Tenant, Timed>, now: int): map<Tenant, Entry> {
    map t | t in redis.Keys + mirror.Keys && Serving(redis, mirror, t).expiresAt > now ::
      Serving(redis, mirror, t).entry
  }

  function Serving(redis: map<Tenant, Timed>, mirror: map<Tenant, Timed>, t: Tenant): Timed
    requires t in redis.Keys + mirror.Keys
  {
    if t in redis then redis[t] else mirror[t]
  }

  /** Redis shadows the mirror, even with an expired entry; a lookup finds the entry as long as it lives. */
  lemma RedisShadows(redis: map<Tenant, Timed>, mirror: map<Tenant, Timed>, now: int, t: Tenant, f: Fingerprint)
    ensures var found := Find(Current(redis, mirror, now), t, f);
            var row := if t in redis then Some(redis[t]) else if t in mirror then Some(mirror[t]) else None;
            && (found == Miss <==> row.None? || row.value.expiresAt <= now)
            && (found == Collision <==> row.Some? && row.value.expiresAt > now && row.value.entry.fingerprint != f)
            && (forall e :: found == Hit(e) <==>
                  row.Some? && row.value.expiresAt > now && row.value.entry == e && e.fingerprint == f)
  {}

  class InProgressMarker {
    /** When the key expires, none when it is absent. */
    var until: Option<int>

    predicate Held(now: int)
      reads this
    {
      until.Some? && until.value > now
    }

    /** `SET key NX EX ttl`: true when this request now owns the slot, for the TTL at most. */
    method TrySet(now: int, ttl: nat) returns (owned: bool)
      modifies this
      ensures owned <==> !old(Held(now))
      ensures until == if owned then Some(now + ttl) else old(until)
    {
      owned := until.None? || until.value <= now;
      if owned { until := Some(now + ttl); }
    }

    method Del()
      modifies this
      ensures until == None
    {
      until := None;
    }
  }

  class IdempotencyKeyStore {
    var redis: map<Tenant, Timed>
    var mirror: map<Tenant, Timed>

    method FindOrCreate(now: int, t: Tenant, f: Fingerprint) returns (found: Found)
      ensures found == Find(Current(redis, mirror, now), t, f)
    {
      if t in redis {
        var timed := redis[t];
        if timed.expiresAt <= now { return Miss; }
        if timed.entry.fingerprint != f { return Collision; }
        return Hit(timed.entry);
      }
      if t !in mirror { return Miss; }
      var timed := mirror[t];
      if timed.expiresAt <= now { return Miss; }
      if timed.entry.fingerprint != f { return Collision; }
      found := Hit(timed.entry);
    }

    method Save(t: Tenant, f: Fingerprint, result: StoredResult, expiresAt: int)
      modifies this
      ensures redis == old(redis)[t := Timed(Entry(f, result), expiresAt)]
      ensures mirror == old(mirror)[t := Timed(Entry(f, result), expiresAt)]
      ensures forall when: int, g: Fingerprint ::
        Find(Current(redis, mirror, when), t, g) ==
        (if expiresAt <= when then Miss else if g == f then Hit(Entry(f, result)) else Collision)
    {
      redis := redis[t := Timed(Entry(f, result), expiresAt)];
      mirror := mirror[t := Timed(Entry(f, result), expiresAt)];
    }
  }

  datatype Response =
    | Malformed
    | KeyRequired
    | PassedThrough(handler: Option<StoredResult>)
    | TooEarly
    | Replay(result: StoredResult)
    | KeyConflict
    | Handled(result: StoredResult)
    | HandlerError

  /** What the client is told at the end of a request. */
  function Told(p: Phase): Option<Response> {
    match p
    case AnswerInProgress => Some(TooEarly)
    case AnswerReplayed(r) => Some(Replay(r))
    case AnswerConflict => Some(KeyConflict)
    case AnswerError => Some(HandlerError)
    case Succeeded(r, _, _) => Some(Handled(r))
    case _ => None
  }

  lemma Saves(redis: map<Tenant, Timed>, mirror: map<Tenant, Timed>, now: int, t: Tenant, timed: Timed)
    requires timed.expiresAt > now
    ensures Current(redis[t := timed], mirror[t := timed], now) == Current(redis, mirror, now)[t := timed.entry]
  {}

  class Interceptor {
    const marker: InProgressMarker
    const store: IdempotencyKeyStore

    constructor (marker: InProgressMarker, store: IdempotencyKeyStore)
      ensures this.marker == marker && this.store == store
    {
      this.marker := marker;
      this.store := store;
    }

    /**
     * One request handled with nobody interleaved. `handler` is what the route handler would
     * produce, none for a throw. A request with a good key does what the protocol's steps do
     * run together, failures included; any other leaves marker and store alone.
     */
    method Handle(required: bool, key: Option<string>, now: int, inflightTtl: nat, ttl: int, t: Tenant, f: Fingerprint,
                  handler: Option<StoredResult>, faults: Faults)
      returns (response: Response)
      requires ttl > 0
      modifies marker, store
      ensures response == KeyRequired <==> (key.None? || key.value == "") && required
      ensures response.PassedThrough? <==> (key.None? || key.value == "") && !required
      ensures response.PassedThrough? ==> response.handler == handler
      ensures response == Malformed <==>
        && key.Some? && key.value != ""
        && !(16 <= |key.value| <= 128 && forall i :: 0 <= i < |key.value| ==> '!' <= key.value[i] <= '~')
      ensures Missing(key) || !GoodKey(key.value) ==>
        marker.until == old(marker.until) && store.redis == old(store.redis) && store.mirror == old(store.mirror)
      ensures !Missing(key) && GoodKey(key.value) ==>
        var w := World(old(marker.Held(now)), old(Current(store.redis, store.mirror, now)), map[]);
        var after := Alone(w, 0, t, f, handler, faults);
        && 0 in after.reqs && Told(after.reqs[0].phase) == Some(response)
        && marker.Held(now) == after.marker
        && Current(store.redis, store.mirror, now) == after.store
      // the answer, in the marker and the entry the store serves
      ensures !Missing(key) && GoodKey(key.value) ==>
        var held := old(marker.until.Some? && marker.until.value > now);
        var stored := old(Current(store.redis, store.mirror, now));
        && (response == TooEarly <==> held)
        && (response == KeyConflict <==> !held && !faults.lookup && t in stored && stored[t].fingerprint != f)
        && (response.Replay? <==>
              !held && !faults.lookup && !faults.write && t in stored && stored[t].fingerprint == f)
        && (response.Replay? ==> t in stored && response.result == stored[t].result)
        && (response.Handled? <==> !held && !faults.lookup && t !in stored && handler.Some?)
        && (response.Handled? ==> handler == Some(response.result))
        && (response == HandlerError <==>
              !held && (faults.lookup || (if t in stored then stored[t].fingerprint == f && faults.write
                                          else handler.None?)))
        && marker.until == (if held then old(marker.until) else None)
      // what the store serves from then on
      ensures response.Handled? && !faults.save ==> forall when: int, g: Fingerprint ::
        Find(Current(store.redis, store.mirror, when), t, g) ==
        (if now + ttl <= when then Miss else if g == f then Hit(Entry(f, response.result)) else Collision)
      ensures response.Handled? && !faults.save ==>
        && store.redis == old(store.redis)[t := Timed(Entry(f, response.result), now + ttl)]
        && store.mirror == old(store.mirror)[t := Timed(Entry(f, response.result), now + ttl)]
      ensures !response.Handled? || faults.save ==>
        store.redis == old(store.redis) && store.mirror == old(store.mirror)
    {
      hide Alone, Current;
      if Missing(key) {
        if required { return KeyRequired; }
        return PassedThrough(handler);
      }
      if !GoodKey(key.value) { return Malformed; }
      AloneAnswers(World(marker.Held(now), Current(store.redis, store.mirror, now), map[]), 0, t, f, handler, faults);
      response := HandleKeyed(now, inflightTtl, ttl, t, f, handler, faults);
    }

    /** From the marker on: look up, replay or run the handler, and give the marker back. */
    method HandleKeyed(now: int, inflightTtl: nat, ttl: int, t: Tenant, f: Fingerprint, handler: Option<StoredResult>,
                       faults: Faults)
      returns (response: Response)
      requires ttl > 0
      modifies marker, store
      ensures var found := old(Find(Current(store.redis, store.mirror, now), t, f));
        response ==
        if old(marker.Held(now)) then TooEarly
        else if faults.lookup then HandlerError
        else match found
          case Hit(e) => if faults.write then HandlerError else Replay(e.result)
          case Collision => KeyConflict
          case Miss => if handler.None? then HandlerError else Handled(handler.value)
      ensures marker.until == if old(marker.Held(now)) then old(marker.until) else None
      ensures if response.Handled? && !faults.save then
                && store.redis == old(store.redis)[t := Timed(Entry(f, response.result), now + ttl)]
                && store.mirror == old(store.mirror)[t := Timed(Entry(f, response.result), now + ttl)]
                && (forall when: int, g: Fingerprint ::
                      Find(Current(store.redis, store.mirror, when), t, g) ==
                      (if now + ttl <= when then Miss
                       else if g == f then Hit(Entry(f, response.result)) else Collision))
                && Current(store.redis, store.mirror, now)
                   == old(Current(store.redis, store.mirror, now))[t := Entry(f, response.result)]
              else
                store.redis == old(store.redis) && store.mirror == old(store.mirror)
    {
      hide Current, Find;
      var owned := marker.TrySet(now, inflightTtl);
      if !owned { return TooEarly; }
      if faults.lookup {
        marker.Del();                          // the catch block
        return HandlerError;
      }
      var found := store.FindOrCreate(now, t, f);
      match found {
        case Hit(e) =>
          marker.Del();
          if faults.write {
            marker.Del();                      // the catch block
            return HandlerError;
          }
          response := Replay(e.result);
        case Collision =>
          marker.Del();
          marker.Del();                        // the catch block
          response := KeyConflict;
        case Miss =>
          if handler.Some? {
            if !faults.save {
              Saves(store.redis, store.mirror, now, t, Timed(Entry(f, handler.value), now + ttl));
              store.Save(t, f, handler.value, now + ttl);
            }
            response := Handled(handler.value);
          } else {
            response := HandlerError;
          }
          marker.Del();
      }
    }
  }
}
