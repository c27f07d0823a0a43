/**
 * The HTTP idempotency protocol for one dedup tuple, as atomic steps of any number of
 * concurrent requests over a shared in-progress marker and a result store.
 */
module Idempotency {
  import opened Basics

  type ReqId = nat
  type Tenant = nat
  /** Body digests are modelled by the body's number (no two bodies share a digest). */
  type Fingerprint = nat

  datatype StoredResult = StoredResult(status: nat, body: nat)

  datatype Entry = Entry(fingerprint: Fingerprint, result: StoredResult)

  datatype Found = Miss | Hit(entry: Entry) | Collision

  datatype SaveState = Pending | Saved | Lost

  datatype Phase =
    | Waiting                                    // before trySet
    | Checking                                   // marker set, store lookup next
    | LookupFailed                               // the lookup threw; the catch block deletes next
    | HitFound(result: StoredResult)             // replay; delete next
    | HitReleased(result: StoredResult)          // replay; response write next
    | CollisionFound                             // delete next
    | Throwing(conflict: bool)                   // after a first delete; the catch block deletes again
    | Running                                    // handler invoked
    | HandlerFailed                              // finalize deletes next
    | Succeeded(result: StoredResult, save: SaveState, released: bool)
    | AnswerInProgress                           // 425
    | AnswerReplayed(result: StoredResult)
    | AnswerConflict                             // 409
    | AnswerError
    | Crashed

  datatype Req = Req(tenant: Tenant, fingerprint: Fingerprint, phase: Phase)

  datatype World = World(marker: bool, store: map<Tenant, Entry>, reqs: map<ReqId, Req>)

  datatype Action =
    | Arrive(q: ReqId, tenant: Tenant, fingerprint: Fingerprint)
    | TrySet(q: ReqId)
    | Lookup(q: ReqId)
    | LookupFails(q: ReqId)
    | Delete(q: ReqId)
    | WriteReplay(q: ReqId)
    | WriteFails(q: ReqId)
    | HandlerOk(q: ReqId, result: StoredResult)
    | HandlerFails(q: ReqId)
    | Save(q: ReqId)
    | SaveFails(q: ReqId)
    | Crash(q: ReqId)
    | Expire                                     // the marker's TTL passes
    | ExpireEntry(tenant: Tenant)                // the stored entry's replay TTL passes

  /** What the store answers for a tenant and a body. */
  function Find(store: map<Tenant, Entry>, tenant: Tenant, fingerprint: Fingerprint): Found {
    if tenant !in store then Miss
    else if store[tenant].fingerprint == fingerprint then Hit(store[tenant])
    else Collision
  }

  function AfterLookup(f: Found): Phase {
    match f
    case Miss => Running
    case Hit(e) => HitFound(e.result)
    case Collision => CollisionFound
  }

  /** A phase whose next delete of the marker is due, and where that delete leads. */
  function AfterDelete(p: Phase): Option<Phase> {
    match p
    case LookupFailed => Some(AnswerError)
    case HitFound(r) => Some(HitReleased(r))
    case CollisionFound => Some(Throwing(true))
    case Throwing(conflict) => Some(if conflict then AnswerConflict else AnswerError)
    case HandlerFailed => Some(AnswerError)
    case Succeeded(r, s, false) => Some(Succeeded(r, s, true))
    case _ => None
  }

  function PhaseOf(w: World, q: ReqId): Option<Phase> {
    if q in w.reqs then Some(w.reqs[q].phase) else None
  }

  function Goto(w: World, q: ReqId, p: Phase): World
    requires q in w.reqs
  {
    w.(reqs := w.reqs[q := w.reqs[q].(phase := p)])
  }

  /** A process may stop at any point before its handler has completed. */
  predicate Stoppable(p: Phase) {
    !p.Succeeded? && !p.AnswerInProgress? && !p.AnswerReplayed? && !p.AnswerConflict? && !p.AnswerError?
  }

  /** One atomic step; an action that is not due changes nothing. */
  function Step(w: World, a: Action): World {
    match a
    case Arrive(q, t, f) => if q in w.reqs then w else w.(reqs := w.reqs[q := Req(t, f, Waiting)])
    case TrySet(q) =>
      if PhaseOf(w, q) != Some(Waiting) then w
      else if w.marker then Goto(w, q, AnswerInProgress)
      else Goto(w, q, Checking).(marker := true)
    case Lookup(q) =>
      if PhaseOf(w, q) != Some(Checking) then w
      else Goto(w, q, AfterLookup(Find(w.store, w.reqs[q].tenant, w.reqs[q].fingerprint)))
    case LookupFails(q) => if PhaseOf(w, q) != Some(Checking) then w else Goto(w, q, LookupFailed)
    case Delete(q) =>
      if q !in w.reqs || AfterDelete(w.reqs[q].phase).None? then w
      else Goto(w, q, AfterDelete(w.reqs[q].phase).value).(marker := false)
    case WriteReplay(q) =>
      if q in w.reqs && w.reqs[q].phase.HitReleased? then Goto(w, q, AnswerReplayed(w.reqs[q].phase.result)) else w
    case WriteFails(q) =>
      if q in w.reqs && w.reqs[q].phase.HitReleased? then Goto(w, q, Throwing(false)) else w
    case HandlerOk(q, r) => if PhaseOf(w, q) != Some(Running) then w else Goto(w, q, Succeeded(r, Pending, false))
    case HandlerFails(q) => if PhaseOf(w, q) != Some(Running) then w else Goto(w, q, HandlerFailed)
    case Save(q) =>
      if q in w.reqs && w.reqs[q].phase.Succeeded? && w.reqs[q].phase.save == Pending then
        var req := w.reqs[q];
        Goto(w, q, req.phase.(save := Saved)).(store := w.store[req.tenant := Entry(req.fingerprint, req.phase.result)])
      else w
    case SaveFails(q) =>
      if q in w.reqs && w.reqs[q].phase.Succeeded? && w.reqs[q].phase.save == Pending then
        Goto(w, q, w.reqs[q].phase.(save := Lost))
      else w
    case Crash(q) => if q in w.reqs && Stoppable(w.reqs[q].phase) then Goto(w, q, Crashed) else w
    case Expire => w.(marker := false)
    case ExpireEntry(t) => w.(store := w.store - {t})
  }

  /** Every action but an expiry is one request's. */
  predicate ByRequest(a: Action) { !a.Expire? && !a.ExpireEntry? }

  const START: World := World(false, map[], map[])

  function Run(w: World, acts: seq<Action>): World {
    if |acts| == 0 then w else Step(Run(w, acts[..|acts| - 1]), acts[|acts| - 1])
  }

  /**
   * What the deployment guarantees. `tenants`: tenants whose requests share the tuple.
   * `saveFirst`: the result save settles before the owner's marker delete. `savesLand`: no
   * save is lost. `markerOutlives`: the marker does not expire under a request that set it
   * and has not deleted it. `entriesOutlive`: a stored entry does not expire before the last
   * retry.
   */
  datatype Config = Config(tenants: set<Tenant>, saveFirst: bool, savesLand: bool, markerOutlives: bool,
                           entriesOutlive: bool)

  predicate Holds(p: Phase) {
    || p.Checking? || p.LookupFailed? || p.HitFound? || p.CollisionFound? || p.Running? || p.HandlerFailed?
    || (p.Succeeded? && !p.released)
  }

  predicate Allowed(c: Config, w: World, a: Action) {
    match a
    case Arrive(_, t, _) => t in c.tenants
    case Delete(q) =>
      c.saveFirst && q in w.reqs && w.reqs[q].phase.Succeeded? ==> w.reqs[q].phase.save != Pending
    case SaveFails(_) => !c.savesLand
    case ExpireEntry(t) => c.entriesOutlive ==> t !in w.store
    case Expire => c.markerOutlives ==> forall q :: q in w.reqs ==> !Holds(w.reqs[q].phase)
    case _ => true
  }

  predicate AllAllowed(c: Config, w: World, acts: seq<Action>) {
    |acts| > 0 ==>
      && AllAllowed(c, w, acts[..|acts| - 1])
      && Allowed(c, Run(w, acts[..|acts| - 1]), acts[|acts| - 1])
  }

  /** Per tenant: handler runs never overlap, and at most one ever completes. */
  predicate Safe(w: World) {
    forall p, q :: p in w.reqs && q in w.reqs && p != q && w.reqs[p].tenant == w.reqs[q].tenant ==>
      && !(w.reqs[p].phase.Running? && w.reqs[q].phase.Running?)
      && !(w.reqs[p].phase.Succeeded? && w.reqs[q].phase.Succeeded?)
  }

  // ---- the invariant ------------------------------------------------------------------

  /** Phases a request can be in before the tuple has a stored result. */
  predicate Early(p: Phase) {
    || p.Waiting? || p.AnswerInProgress? || p.AnswerError? || p.Crashed? || Exclusive(p)
  }

  /** Phases held by at most one request, behind the marker, until a result is stored. */
  predicate Exclusive(p: Phase) {
    || p.Checking? || p.LookupFailed? || p.Running? || p.HandlerFailed?
    || (p.Succeeded? && p.save == Pending && !p.released)
  }

  /** Phases and answers once `e` is stored: replays carry it, conflicts are other bodies. */
  predicate Late(r: Req, e: Entry) {
    match r.phase
    case HitFound(res) => r.fingerprint == e.fingerprint && res == e.result
    case HitReleased(res) => r.fingerprint == e.fingerprint && res == e.result
    case AnswerReplayed(res) => r.fingerprint == e.fingerprint && res == e.result
    case CollisionFound => r.fingerprint != e.fingerprint
    case AnswerConflict => r.fingerprint != e.fingerprint
    case Throwing(conflict) => conflict ==> r.fingerprint != e.fingerprint
    case Running => false
    case Succeeded(res, s, _) => s == Saved && r.fingerprint == e.fingerprint && res == e.result
    case _ => true
  }

  ghost predicate Inv(t: Tenant, w: World) {
    && (forall q :: q in w.reqs ==> w.reqs[q].tenant == t)
    && (t !in w.store ==>
          && (forall q :: q in w.reqs ==> Early(w.reqs[q].phase))
          && (forall q :: q in w.reqs && Exclusive(w.reqs[q].phase) ==> w.marker)
          && (forall p, q :: p in w.reqs && q in w.reqs && Exclusive(w.reqs[p].phase) && Exclusive(w.reqs[q].phase)
                ==> p == q))
    && (t in w.store ==>
          && (forall q :: q in w.reqs ==> Late(w.reqs[q], w.store[t]))
          && (forall p, q :: p in w.reqs && q in w.reqs && w.reqs[p].phase.Succeeded? && w.reqs[q].phase.Succeeded?
                ==> p == q))
  }

  predicate Disciplined(c: Config, t: Tenant) {
    c.tenants <= {t} && c.saveFirst && c.savesLand && c.markerOutlives && c.entriesOutlive
  }

  lemma StepKeeps(c: Config, t: Tenant, w: World, a: Action)
    requires Disciplined(c, t) && Inv(t, w) && Allowed(c, w, a)
    ensures Inv(t, Step(w, a))
  {
    if t in w.store { StepKeepsLate(c, t, w, a); } else { StepKeepsEarly(c, t, w, a); }
  }

  lemma StepKeepsEarly(c: Config, t: Tenant, w: World, a: Action)
    requires Disciplined(c, t) && Inv(t, w) && Allowed(c, w, a) && t !in w.store
    ensures Inv(t, Step(w, a))
  {
    if a.Save? {
      SaveStores(t, w, a.q);
    } else if ByRequest(a) && a.q in w.reqs {
      EarlyMove(c, t, w, a);
    } else if a.Arrive? {
      assert forall q :: q in w.reqs ==> Step(w, a).reqs[q] == w.reqs[q];
    }
  }

  /** The save ends the exclusive phase: nobody else is past the marker. */
  lemma SaveStores(t: Tenant, w: World, q: ReqId)
    requires Inv(t, w) && t !in w.store
    ensures Inv(t, Step(w, Save(q)))
  {
    var after := Step(w, Save(q));
    if t in after.store {
      forall p | p in w.reqs && p != q ensures Late(after.reqs[p], after.store[t]) && !w.reqs[p].phase.Succeeded? {
        assert Early(w.reqs[p].phase);
      }
    }
  }

  /** What one step may do to the request it moves and to the marker before anything is stored. */
  lemma EarlyPhase(c: Config, t: Tenant, w: World, a: Action)
    requires Disciplined(c, t) && Inv(t, w) && Allowed(c, w, a) && t !in w.store
    requires ByRequest(a) && !a.Save? && a.q in w.reqs
    ensures var after := Step(w, a);
            && after.store == w.store && after.reqs == w.reqs[a.q := after.reqs[a.q]]
            && after.reqs[a.q].tenant == t && Early(after.reqs[a.q].phase)
            && (Exclusive(after.reqs[a.q].phase) ==> after.marker && (Exclusive(w.reqs[a.q].phase) || !w.marker))
            && (w.marker && !after.marker ==> Exclusive(w.reqs[a.q].phase) && !Exclusive(after.reqs[a.q].phase))
  {
    assert Early(w.reqs[a.q].phase);
    assert w.reqs == w.reqs[a.q := w.reqs[a.q]];
  }

  lemma EarlyMove(c: Config, t: Tenant, w: World, a: Action)
    requires Disciplined(c, t) && Inv(t, w) && Allowed(c, w, a) && t !in w.store
    requires ByRequest(a) && !a.Save? && a.q in w.reqs
    ensures Inv(t, Step(w, a))
  {
    hide Step, Early, Exclusive, Late;
    EarlyPhase(c, t, w, a);
  }

  /** One request's move once a result is stored. */
  lemma LateMove(c: Config, t: Tenant, w: World, a: Action, q: ReqId)
    requires Disciplined(c, t) && Inv(t, w) && Allowed(c, w, a) && t in w.store && q in Step(w, a).reqs
    ensures Step(w, a).reqs[q].tenant == t
    ensures Late(Step(w, a).reqs[q], w.store[t])
    ensures Step(w, a).reqs[q].phase.Succeeded? ==> q in w.reqs && w.reqs[q].phase.Succeeded?
  {
    if ByRequest(a) && a.q in w.reqs { assert Late(w.reqs[a.q], w.store[t]); }
    if q in w.reqs { assert Late(w.reqs[q], w.store[t]); }
  }

  lemma StepKeepsLate(c: Config, t: Tenant, w: World, a: Action)
    requires Disciplined(c, t) && Inv(t, w) && Allowed(c, w, a) && t in w.store
    ensures Inv(t, Step(w, a))
    ensures Step(w, a).store == w.store
    ensures forall q :: q in Step(w, a).reqs && Step(w, a).reqs[q].phase.Succeeded? ==>
      q in w.reqs && w.reqs[q].phase.Succeeded?
  {
    hide Step, Late, Allowed;
    var after := Step(w, a);
    assert after.store == w.store by { StoreStays(c, t, w, a); }
    forall q | q in after.reqs
      ensures after.reqs[q].tenant == t && Late(after.reqs[q], w.store[t])
      ensures after.reqs[q].phase.Succeeded? ==> q in w.reqs && w.reqs[q].phase.Succeeded?
    {
      LateMove(c, t, w, a, q);
    }
  }

  lemma StoreStays(c: Config, t: Tenant, w: World, a: Action)
    requires Disciplined(c, t) && Inv(t, w) && Allowed(c, w, a) && t in w.store
    ensures Step(w, a).store == w.store
  {
    if a.Save? && a.q in w.reqs { assert Late(w.reqs[a.q], w.store[t]); }
  }

  lemma {:induction false} RunKeeps(c: Config, t: Tenant, w: World, acts: seq<Action>)
    requires Disciplined(c, t) && Inv(t, w) && AllAllowed(c, w, acts)
    ensures Inv(t, Run(w, acts))
  {
    hide Inv, Step, Allowed;
    if |acts| > 0 {
      RunKeeps(c, t, w, acts[..|acts| - 1]);
      StepKeeps(c, t, Run(w, acts[..|acts| - 1]), acts[|acts| - 1]);
    }
  }

  lemma InvIsSafe(t: Tenant, w: World)
    requires Inv(t, w)
    ensures Safe(w)
  {
    forall p, q | p in w.reqs && q in w.reqs && p != q
      ensures !(w.reqs[p].phase.Running? && w.reqs[q].phase.Running?)
      ensures !(w.reqs[p].phase.Succeeded? && w.reqs[q].phase.Succeeded?)
    {
      if t !in w.store {
        assert Early(w.reqs[p].phase) && Early(w.reqs[q].phase);
      } else {
        assert Late(w.reqs[p], w.store[t]);
      }
    }
  }

  /**
   * After the first stored success, whatever interleaving follows: the stored entry never
   * changes, no handler runs or completes again, every replay answers with the stored result
   * to the same body, and every conflict answers a different body.
   */
  lemma {:induction false} ReplaysForever(c: Config, t: Tenant, w: World, acts: seq<Action>)
    requires Disciplined(c, t) && Inv(t, w) && t in w.store && AllAllowed(c, w, acts)
    ensures var after := Run(w, acts);
            && Inv(t, after)
            && t in after.store && after.store[t] == w.store[t]
            && (forall q :: q in after.reqs ==> Late(after.reqs[q], w.store[t]))
            && (forall q :: q in after.reqs && after.reqs[q].phase.Succeeded? ==>
                  q in w.reqs && w.reqs[q].phase.Succeeded?)
  {
    if |acts| > 0 {
      hide Step, Allowed;
      var before, a := Run(w, acts[..|acts| - 1]), acts[|acts| - 1];
      ReplaysForever(c, t, w, acts[..|acts| - 1]);
      StepKeepsLate(c, t, before, a);
    }
  }

  // ---- exactly which deployments are safe -------------------------------------------------

  ghost predicate AllRunsSafe(c: Config) {
    forall acts: seq<Action> :: AllAllowed(c, START, acts) ==> Safe(Run(START, acts))
  }

  ghost predicate Reached(c: Config, acts: seq<Action>, w: World) {
    AllAllowed(c, START, acts) && Run(START, acts) == w
  }

  lemma Extend(c: Config, acts: seq<Action>, w: World, a: Action) returns (more: seq<Action>, next: World)
    requires Reached(c, acts, w) && Allowed(c, w, a)
    ensures next == Step(w, a) && Reached(c, more, next)
  {
    more, next := acts + [a], Step(w, a);
    assert more[..|more| - 1] == acts;
  }

  /** A request that meets a free marker and no stored entry gets as far as its handler. */
  lemma ReachHandler(c: Config, acts: seq<Action>, w: World, q: ReqId, t: Tenant, f: Fingerprint)
    returns (more: seq<Action>, next: World)
    requires Reached(c, acts, w) && !w.marker && q !in w.reqs && t in c.tenants && t !in w.store
    ensures Reached(c, more, next)
    ensures next == World(true, w.store, w.reqs[q := Req(t, f, Running)])
  {
    hide Reached;
    more, next := Extend(c, acts, w, Arrive(q, t, f));
    more, next := Extend(c, more, next, TrySet(q));
    more, next := Extend(c, more, next, Lookup(q));
  }

  /** The handler completes before anything is stored: two successes follow a released marker. */
  lemma SecondSuccess(c: Config, acts: seq<Action>, w: World, p: ReqId, t: Tenant)
    requires Reached(c, acts, w) && !w.marker && t in c.tenants && t !in w.store
    requires p in w.reqs && w.reqs[p].tenant == t && w.reqs[p].phase.Succeeded?
    ensures !AllRunsSafe(c)
  {
    var q := Unused(w.reqs.Keys);
    var more, next := ReachHandler(c, acts, w, q, t, 0);
    more, next := Extend(c, more, next, HandlerOk(q, StoredResult(200, 0)));
    Violates(next, p, q);
  }

  lemma Violates(w: World, p: ReqId, q: ReqId)
    requires p in w.reqs && q in w.reqs && p != q && w.reqs[p].tenant == w.reqs[q].tenant
    requires || (w.reqs[p].phase.Running? && w.reqs[q].phase.Running?)
             || (w.reqs[p].phase.Succeeded? && w.reqs[q].phase.Succeeded?)
    ensures !Safe(w)
  {
    assert w.reqs[p].tenant == w.reqs[q].tenant;
  }

  /** The marker delete overtakes the save, as the code allows: the retry runs the handler again. */
  lemma UnsafeWithoutSaveFirst(c: Config, t: Tenant)
    requires t in c.tenants && !c.saveFirst
    ensures !AllRunsSafe(c)
  {
    hide Reached, AllRunsSafe, Safe;
    var acts, w := ReachFromStart(c, t);
    acts, w := Extend(c, acts, w, HandlerOk(0, StoredResult(200, 0)));
    acts, w := Extend(c, acts, w, Delete(0));
    SecondSuccess(c, acts, w, 0, t);
  }

  /** A lost save is logged and swallowed: the retry runs the handler again. */
  lemma UnsafeWithoutSavesLand(c: Config, t: Tenant)
    requires t in c.tenants && !c.savesLand
    ensures !AllRunsSafe(c)
  {
    hide Reached, AllRunsSafe, Safe;
    var acts, w := ReachFromStart(c, t);
    acts, w := Extend(c, acts, w, HandlerOk(0, StoredResult(200, 0)));
    acts, w := Extend(c, acts, w, SaveFails(0));
    acts, w := Extend(c, acts, w, Delete(0));
    SecondSuccess(c, acts, w, 0, t);
  }

  /** The marker expires under a slow handler: two handler runs overlap. */
  lemma UnsafeWithoutMarkerOutlives(c: Config, t: Tenant)
    requires t in c.tenants && !c.markerOutlives
    ensures !AllRunsSafe(c)
  {
    hide Safe;
    var acts, w := ReachFromStart(c, t);
    acts, w := Extend(c, acts, w, Expire);
    acts, w := ReachHandler(c, acts, w, 1, t, 0);
    Violates(w, 0, 1);
  }

  /** The stored entry expires between the answer and a retry: the handler runs again. */
  lemma UnsafeWithoutEntriesOutlive(c: Config, t: Tenant)
    requires t in c.tenants && !c.entriesOutlive
    ensures !AllRunsSafe(c)
  {
    hide Reached, AllRunsSafe, Safe;
    var acts, w := ReachStored(c, t);
    acts, w := Extend(c, acts, w, ExpireEntry(t));
    SecondSuccess(c, acts, w, 0, t);
  }

  /** One request of tenant `t` has completed, saved its result and released the marker. */
  lemma ReachStored(c: Config, t: Tenant) returns (acts: seq<Action>, w: World)
    requires t in c.tenants
    ensures Reached(c, acts, w)
    ensures !w.marker && w.store == map[t := Entry(0, StoredResult(200, 0))] && w.reqs.Keys == {0}
    ensures w.reqs[0].tenant == t && w.reqs[0].phase.Succeeded?
  {
    hide Reached;
    acts, w := ReachFromStart(c, t);
    acts, w := Extend(c, acts, w, HandlerOk(0, StoredResult(200, 0)));
    acts, w := Extend(c, acts, w, Save(0));
    acts, w := Extend(c, acts, w, Delete(0));
  }

  /** A stored result, then a request with another body whose second delete is still due. */
  lemma PendingSecondDelete(c: Config, t: Tenant) returns (acts: seq<Action>, w: World)
    requires t in c.tenants
    ensures Reached(c, acts, w)
    ensures !w.marker && w.store.Keys == {t} && w.reqs.Keys == {0, 1}
    ensures w.reqs[1].phase == Throwing(true)
  {
    hide Reached;
    acts, w := ReachStored(c, t);
    acts, w := Extend(c, acts, w, Arrive(1, t, 1));
    acts, w := Extend(c, acts, w, TrySet(1));
    acts, w := Extend(c, acts, w, Lookup(1));
    acts, w := Extend(c, acts, w, Delete(1));
  }

  lemma ReachFromStart(c: Config, t: Tenant) returns (acts: seq<Action>, w: World)
    requires t in c.tenants
    ensures Reached(c, acts, w) && w == World(true, map[], map[0 := Req(t, 0, Running)])
  {
    acts, w := ReachHandler(c, [], START, 0, t, 0);
    assert START.reqs[0 := Req(t, 0, Running)] == map[0 := Req(t, 0, Running)];
  }

  /**
   * Two tenants share a tuple: a body conflict in the first deletes the marker twice, and the
   * second delete removes the marker that guards a running handler of the second tenant.
   */
  lemma UnsafeAcrossTenants(c: Config, t: Tenant, u: Tenant)
    requires t in c.tenants && u in c.tenants && t != u
    ensures !AllRunsSafe(c)
  {
    var acts, w := PendingSecondDelete(c, t);
    acts, w := ReachHandler(c, acts, w, 2, u, 0);
    acts, w := Extend(c, acts, w, Delete(1));
    acts, w := ReachHandler(c, acts, w, 3, u, 0);
    Violates(w, 2, 3);
  }

  /**
   * Every interleaving of every set of requests is safe exactly when at most one tenant uses
   * the tuple and, if one does, the save precedes the owner's delete, no save is lost, the
   * marker outlives its owner, and the stored entry outlives the retries.
   */
  lemma SafeIff(c: Config)
    ensures AllRunsSafe(c) <==>
      (forall t :: t in c.tenants ==>
         c.tenants == {t} && c.saveFirst && c.savesLand && c.markerOutlives && c.entriesOutlive)
  {
    if t :| t in c.tenants && !(c.tenants == {t} && Disciplined(c, t)) {
      if !c.saveFirst {
        UnsafeWithoutSaveFirst(c, t);
      } else if !c.savesLand {
        UnsafeWithoutSavesLand(c, t);
      } else if !c.markerOutlives {
        UnsafeWithoutMarkerOutlives(c, t);
      } else if !c.entriesOutlive {
        UnsafeWithoutEntriesOutlive(c, t);
      } else {
        var u :| u in c.tenants && u != t;
        UnsafeAcrossTenants(c, t, u);
      }
    } else {
      forall acts: seq<Action> | AllAllowed(c, START, acts) ensures Safe(Run(START, acts)) {
        if c.tenants == {} {
          NobodyArrives(c, acts);
        } else {
          var t :| t in c.tenants;
          RunKeeps(c, t, START, acts);
          InvIsSafe(t, Run(START, acts));
        }
      }
    }
  }

  lemma {:induction false} NobodyArrives(c: Config, acts: seq<Action>)
    requires c.tenants == {} && AllAllowed(c, START, acts)
    ensures Run(START, acts).reqs == map[]
  {
    if |acts| > 0 { NobodyArrives(c, acts[..|acts| - 1]); }
  }

  // ---- one request with nobody interleaved -----------------------------------------------------

  /** What may fail while one request is handled: the store lookup, the replay's write, the save. */
  datatype Faults = Faults(lookup: bool, write: bool, save: bool)

  /** The statements of one request in order; those that are not due change nothing. */
  function Alone(w: World, q: ReqId, t: Tenant, f: Fingerprint, handler: Option<StoredResult>, faults: Faults): World {
    Release(Handle(LookUp(w, q, t, f, faults), q, handler, faults), q, faults)
  }

  function LookUp(w: World, q: ReqId, t: Tenant, f: Fingerprint, faults: Faults): World {
    var marked := Step(Step(w, Arrive(q, t, f)), TrySet(q));
    Step(marked, if faults.lookup then LookupFails(q) else Lookup(q))
  }

  function Handle(w: World, q: ReqId, handler: Option<StoredResult>, faults: Faults): World {
    var ran := Step(w, if handler.Some? then HandlerOk(q, handler.value) else HandlerFails(q));
    Step(ran, if faults.save then SaveFails(q) else Save(q))
  }

  function Release(w: World, q: ReqId, faults: Faults): World {
    var released := Step(Step(w, Delete(q)), Delete(q));
    Step(Step(released, if faults.write then WriteFails(q) else WriteReplay(q)), Delete(q))
  }

  lemma LooksUp(w: World, q: ReqId, t: Tenant, f: Fingerprint, faults: Faults)
    requires q !in w.reqs
    ensures var p := if w.marker then AnswerInProgress
                     else if faults.lookup then LookupFailed
                     else AfterLookup(Find(w.store, t, f));
            LookUp(w, q, t, f, faults) == World(true, w.store, w.reqs[q := Req(t, f, p)])
  {}

  lemma Handles(w: World, q: ReqId, handler: Option<StoredResult>, faults: Faults)
    requires q in w.reqs && !w.reqs[q].phase.Succeeded?
    ensures var r := w.reqs[q];
            Handle(w, q, handler, faults) ==
            if !r.phase.Running? then w
            else if handler.None? then Goto(w, q, HandlerFailed)
            else if faults.save then Goto(w, q, Succeeded(handler.value, Lost, false))
            else Goto(w, q, Succeeded(handler.value, Saved, false)).(
              store := w.store[r.tenant := Entry(r.fingerprint, handler.value)])
  {
    if w.reqs[q].phase.Running? && handler.Some? {
      var ran := Step(w, HandlerOk(q, handler.value));
      assert ran == Goto(w, q, Succeeded(handler.value, Pending, false));
    }
  }

  lemma DeletesTwice(w: World, q: ReqId)
    requires q in w.reqs
    ensures var after, p := Step(Step(w, Delete(q)), Delete(q)), w.reqs[q].phase;
            var once := AfterDelete(p);
            after == if once.None? then w
                     else
                       var twice := AfterDelete(once.value).UnwrapOr(once.value);
                       World(false, w.store, w.reqs[q := w.reqs[q].(phase := twice)])
  {}

  lemma WritesLast(w: World, q: ReqId, faults: Faults)
    requires q in w.reqs && AfterDelete(w.reqs[q].phase).None?
    ensures var p := w.reqs[q].phase;
            var after := Step(Step(w, if faults.write then WriteFails(q) else WriteReplay(q)), Delete(q));
            after == if !p.HitReleased? then w
                     else if faults.write then Goto(w, q, AnswerError).(marker := false)
                     else Goto(w, q, AnswerReplayed(p.result))
  {}

  lemma Releases(w: World, q: ReqId, faults: Faults)
    requires q in w.reqs
    ensures var after, p := Release(w, q, faults), w.reqs[q].phase;
            && after.store == w.store && after.reqs.Keys == w.reqs.Keys
            && (p.AnswerInProgress? ==> after.marker == w.marker && after.reqs[q].phase == p)
            && (p.HitFound? ==>
                  && !after.marker
                  && after.reqs[q].phase == if faults.write then AnswerError else AnswerReplayed(p.result))
            && (p.CollisionFound? ==> !after.marker && after.reqs[q].phase == AnswerConflict)
            && (p.HandlerFailed? || p.LookupFailed? ==> !after.marker && after.reqs[q].phase == AnswerError)
            && (p.Succeeded? && !p.released ==> !after.marker && after.reqs[q].phase == p.(released := true))
  {
    hide Step;
    DeletesTwice(w, q);
    var released := Step(Step(w, Delete(q)), Delete(q));
    if AfterDelete(released.reqs[q].phase).None? { WritesLast(released, q, faults); }
  }

  /**
   * A request handled alone gives the marker back whatever fails, and stores its result
   * exactly when its handler completed and the save landed.
   */
  lemma AloneAnswers(w: World, q: ReqId, t: Tenant, f: Fingerprint, handler: Option<StoredResult>, faults: Faults)
    requires q !in w.reqs
    ensures var after, found := Alone(w, q, t, f, handler, faults), Find(w.store, t, f);
            && after.marker == w.marker && after.reqs.Keys == w.reqs.Keys + {q}
            && after.reqs[q].phase ==
               (if w.marker then AnswerInProgress
                else if faults.lookup then AnswerError
                else match found
                  case Hit(e) => if faults.write then AnswerError else AnswerReplayed(e.result)
                  case Collision => AnswerConflict
                  case Miss =>
                    if handler.None? then AnswerError
                    else Succeeded(handler.value, if faults.save then Lost else Saved, true))
            && after.store ==
               (if !w.marker && !faults.lookup && found == Miss && handler.Some? && !faults.save
                then w.store[t := Entry(f, handler.value)] else w.store)
  {
    hide LookUp, Handle, Release, Find;
    LooksUp(w, q, t, f, faults);
    Handles(LookUp(w, q, t, f, faults), q, handler, faults);
    Releases(Handle(LookUp(w, q, t, f, faults), q, handler, faults), q, faults);
  }
}
