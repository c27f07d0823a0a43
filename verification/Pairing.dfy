/**
 * Terminal pairing: one-time codes redeemed by any number of racing terminals, each
 * redemption a sequence of separate transactions.
 */
module Pairing {
  import opened Basics

  type TerminalId = nat
  type TenantId = nat
  type StoreId = nat

  const MAX_ATTEMPTS_PER_CODE: nat := 5

  /** What a code pins when it is issued. */
  datatype Binding = Binding(tenant: TenantId, store: StoreId, terminal: TerminalId)

  datatype Status = Pending | Used | Cancelled

  datatype Code = Code(binding: Binding, status: Status, expiresAt: int, attempts: nat, device: Option<TerminalId>)

  /** A device's id is its terminal's id. */
  datatype Device = Device(tenant: TenantId, store: StoreId, revoked: bool)

  datatype Reply = Paired | Expired | AlreadyPaired | BranchMismatch | RateLimited | Crashed

  datatype Phase =
    | Found                                      // the row was read; count the attempt next
    | Admitted                                   // judge the row as read next
    | Unspent                                    // look for a paired branch next
    | Clear                                      // burn and provision next
    | Finished(reply: Reply)

  /** `seen` is the code row as first read; `turn` the attempt count this redemption got. */
  datatype Redemption = Redemption(code: nat, seen: Code, turn: Option<nat>, phase: Phase)

  datatype World = World(codes: seq<Code>, devices: map<TerminalId, Device>, redemptions: seq<Redemption>, now: int)

  datatype Action =
    | Issue(binding: Binding, expiresAt: int)
    | Cancel(code: nat)
    | Revoke(terminal: TerminalId)
    | Tick(elapsed: nat)
    | Find(code: nat)
    | Advance(r: nat)
    | Crash(r: nat)

  predicate IsSpent(c: Code, now: int) { c.status != Pending || c.expiresAt <= now }

  /** The live device at the terminal, as the code's tenant sees it. */
  function PairedBranch(devices: map<TerminalId, Device>, b: Binding): Option<StoreId> {
    if b.terminal in devices && !devices[b.terminal].revoked && devices[b.terminal].tenant == b.tenant
    then Some(devices[b.terminal].store)
    else None
  }

  function Goto(w: World, r: nat, p: Phase): World
    requires r < |w.redemptions|
  {
    w.(redemptions := w.redemptions[r := w.redemptions[r].(phase := p)])
  }

  /** Burn, insert, link: one transaction, which a refused insert rolls back whole. */
  function BurnAndProvision(w: World, r: nat): World
    requires r < |w.redemptions| && w.redemptions[r].code < |w.codes|
  {
    var c, b := w.redemptions[r].code, w.redemptions[r].seen.binding;
    if IsSpent(w.codes[c], w.now) then Goto(w, r, Finished(Expired))
    else if b.terminal in w.devices then Goto(w, r, Finished(AlreadyPaired))
    else Goto(w, r, Finished(Paired)).(
      codes := w.codes[c := w.codes[c].(status := Used, device := Some(b.terminal))],
      devices := w.devices[b.terminal := Device(b.tenant, b.store, false)])
  }

  function RecordAttempt(w: World, r: nat): World
    requires r < |w.redemptions| && w.redemptions[r].code < |w.codes|
  {
    var d := w.redemptions[r];
    var n := w.codes[d.code].attempts + 1;
    w.(codes := w.codes[d.code := w.codes[d.code].(attempts := n)],
       redemptions := w.redemptions[r :=
         d.(turn := Some(n), phase := if n > MAX_ATTEMPTS_PER_CODE then Finished(RateLimited) else Admitted)])
  }

  function AdvanceOne(w: World, r: nat): World
    requires r < |w.redemptions| && w.redemptions[r].code < |w.codes|
  {
    var d := w.redemptions[r];
    match d.phase
    case Found => RecordAttempt(w, r)
    case Admitted => Goto(w, r, if IsSpent(d.seen, w.now) then Finished(Expired) else Unspent)
    case Unspent =>
      var branch := PairedBranch(w.devices, d.seen.binding);
      Goto(w, r, if branch.None? then Clear
                 else Finished(if branch.value == d.seen.binding.store then AlreadyPaired else BranchMismatch))
    case Clear => BurnAndProvision(w, r)
    case Finished(_) => w
  }

  function Step(w: World, a: Action): World {
    match a
    case Issue(b, expiresAt) => w.(codes := w.codes + [Code(b, Pending, expiresAt, 0, None)])
    case Cancel(c) =>
      if c < |w.codes| && w.codes[c].status == Pending then
        w.(codes := w.codes[c := w.codes[c].(status := Cancelled)])
      else w
    case Revoke(t) =>
      if t in w.devices then w.(devices := w.devices[t := w.devices[t].(revoked := true)]) else w
    case Tick(elapsed) => w.(now := w.now + elapsed)
    case Find(c) =>
      if c < |w.codes| then w.(redemptions := w.redemptions + [Redemption(c, w.codes[c], None, Found)]) else w
    case Advance(r) =>
      if r < |w.redemptions| && w.redemptions[r].code < |w.codes| then AdvanceOne(w, r) else w
    case Crash(r) =>
      if r < |w.redemptions| && !w.redemptions[r].phase.Finished? then Goto(w, r, Finished(Crashed)) else w
  }

  const START: World := World([], map[], [], 0)

  function Run(w: World, acts: seq<Action>): World {
    if |acts| == 0 then w else Step(Run(w, acts[..|acts| - 1]), acts[|acts| - 1])
  }

  // ---- counting --------------------------------------------------------------------------------

  function Mark(b: bool): int { if b then 1 else 0 }

  function IsPaired(c: nat): Redemption -> int { (d: Redemption) => Mark(d.code == c && d.phase == Finished(Paired)) }

  function IsPairedAt(t: TerminalId): Redemption -> int {
    (d: Redemption) => Mark(d.seen.binding.terminal == t && d.phase == Finished(Paired))
  }

  function HasTurn(c: nat): Redemption -> int { (d: Redemption) => Mark(d.code == c && d.turn.Some?) }

  predicate PassedGate(d: Redemption) { d.turn.Some? && d.turn.value <= MAX_ATTEMPTS_PER_CODE }

  function HasPassed(c: nat): Redemption -> int { (d: Redemption) => Mark(d.code == c && PassedGate(d)) }

  /** A redemption points at its code, and got past the gate if it got anywhere. */
  predicate RedemptionHolds(codes: seq<Code>, d: Redemption) {
    && d.code < |codes| && d.seen.binding == codes[d.code].binding
    && (d.phase.Found? ==> d.turn.None?)
    && (d.phase.Admitted? || d.phase.Unspent? || d.phase.Clear? || d.phase == Finished(Paired) ==> PassedGate(d))
  }

  predicate Bound(w: World) {
    forall r :: 0 <= r < |w.redemptions| ==> RedemptionHolds(w.codes, w.redemptions[r])
  }

  /** One code: used exactly when one redemption paired, and the gate let through exactly min(attempts, 5). */
  predicate CodeHolds(w: World, c: nat)
    requires c < |w.codes|
  {
    var code := w.codes[c];
    && Total(w.redemptions, IsPaired(c)) == Mark(code.status == Used)
    && Total(w.redemptions, HasTurn(c)) == code.attempts
    && Total(w.redemptions, HasPassed(c)) == Min(code.attempts, MAX_ATTEMPTS_PER_CODE)
    && (code.status == Used ==>
          && code.device == Some(code.binding.terminal)
          && code.binding.terminal in w.devices
          && w.devices[code.binding.terminal].tenant == code.binding.tenant
          && w.devices[code.binding.terminal].store == code.binding.store)
  }

  /** One terminal: a device exists exactly when one redemption paired it, over all its codes. */
  predicate TerminalHolds(w: World, t: TerminalId) {
    Total(w.redemptions, IsPairedAt(t)) == Mark(t in w.devices)
  }

  ghost predicate Inv(w: World) {
    && Bound(w)
    && (forall c :: 0 <= c < |w.codes| ==> CodeHolds(w, c))
    && (forall t: TerminalId :: TerminalHolds(w, t))
  }

  // ---- one step ----------------------------------------------------------------------------------

  lemma RedemptionStays(w: World, a: Action, r: nat)
    requires Bound(w) && r < |Step(w, a).redemptions|
    ensures RedemptionHolds(Step(w, a).codes, Step(w, a).redemptions[r])
  {
    hide PairedBranch, IsSpent;
    if r < |w.redemptions| { assert RedemptionHolds(w.codes, w.redemptions[r]); }
    if a.Advance? && a.r < |w.redemptions| { assert RedemptionHolds(w.codes, w.redemptions[a.r]); }
  }

  lemma BoundStays(w: World, a: Action)
    requires Bound(w)
    ensures Bound(Step(w, a))
  {
    hide Step, RedemptionHolds;
    forall r | 0 <= r < |Step(w, a).redemptions|
      ensures RedemptionHolds(Step(w, a).codes, Step(w, a).redemptions[r])
    {
      RedemptionStays(w, a, r);
    }
  }

  /** Terminals and branches of devices never change, and a revoked device stays revoked. */
  predicate SameBranches(before: map<TerminalId, Device>, after: map<TerminalId, Device>) {
    forall t :: t in before ==>
      t in after && after[t].tenant == before[t].tenant && after[t].store == before[t].store &&
      (before[t].revoked ==> after[t].revoked)
  }

  lemma BranchesStay(w: World, a: Action)
    ensures SameBranches(w.devices, Step(w, a).devices)
  {}

  lemma CodeStays(w: World, a: Action, c: nat)
    requires Bound(w) && c < |Step(w, a).codes| && (c < |w.codes| ==> CodeHolds(w, c))
    ensures CodeHolds(Step(w, a), c)
  {
    hide Total, AdvanceOne;
    var after := Step(w, a);
    match a {
      case Issue(_, _) =>
        if c == |w.codes| {
          TotalZero(w.redemptions, IsPaired(c));
          TotalZero(w.redemptions, HasTurn(c));
          TotalZero(w.redemptions, HasPassed(c));
        }
      case Find(f) =>
        if f < |w.codes| {
          TotalSnoc(w.redemptions, after.redemptions[|w.redemptions|], IsPaired(c));
          TotalSnoc(w.redemptions, after.redemptions[|w.redemptions|], HasTurn(c));
          TotalSnoc(w.redemptions, after.redemptions[|w.redemptions|], HasPassed(c));
        }
      case Advance(r) => if r < |w.redemptions| { CodeStaysAdvance(w, r, c); }
      case Crash(r) => if r < |w.redemptions| { CodeCounts(w, after, r, c); }
      case _ =>
    }
  }

  lemma CodeCounts(w: World, after: World, r: nat, c: nat)
    requires r < |w.redemptions| && |after.redemptions| == |w.redemptions|
    requires after.redemptions == w.redemptions[r := after.redemptions[r]]
    ensures var d, e := w.redemptions[r], after.redemptions[r];
            && Total(after.redemptions, IsPaired(c))
               == Total(w.redemptions, IsPaired(c)) - IsPaired(c)(d) + IsPaired(c)(e)
            && Total(after.redemptions, HasTurn(c)) == Total(w.redemptions, HasTurn(c)) - HasTurn(c)(d) + HasTurn(c)(e)
            && Total(after.redemptions, HasPassed(c))
               == Total(w.redemptions, HasPassed(c)) - HasPassed(c)(d) + HasPassed(c)(e)
  {
    TotalUpdate(w.redemptions, r, after.redemptions[r], IsPaired(c));
    TotalUpdate(w.redemptions, r, after.redemptions[r], HasTurn(c));
    TotalUpdate(w.redemptions, r, after.redemptions[r], HasPassed(c));
  }

  lemma CodeStaysAdvance(w: World, r: nat, c: nat)
    requires Bound(w) && r < |w.redemptions| && c < |AdvanceOne(w, r).codes| && (c < |w.codes| ==> CodeHolds(w, c))
    ensures CodeHolds(AdvanceOne(w, r), c)
  {
    hide Total, PairedBranch;
    var after := AdvanceOne(w, r);
    assert after.redemptions == w.redemptions[r := after.redemptions[r]];
    CodeCounts(w, after, r, c);
  }

  lemma TerminalStays(w: World, a: Action, t: TerminalId)
    requires Bound(w) && TerminalHolds(w, t)
    ensures TerminalHolds(Step(w, a), t)
  {
    hide Total, PairedBranch, IsSpent;
    var after := Step(w, a);
    if |after.redemptions| > |w.redemptions| {
      TotalSnoc(w.redemptions, after.redemptions[|w.redemptions|], IsPairedAt(t));
    } else if (a.Advance? || a.Crash?) && a.r < |w.redemptions| {
      assert after.redemptions == w.redemptions[a.r := after.redemptions[a.r]];
      TotalUpdate(w.redemptions, a.r, after.redemptions[a.r], IsPairedAt(t));
    }
  }

  lemma StepKeeps(w: World, a: Action)
    requires Inv(w)
    ensures Inv(Step(w, a))
  {
    hide Bound, CodeHolds, TerminalHolds, Step;
    BoundStays(w, a);
    var after := Step(w, a);
    forall c | 0 <= c < |after.codes| ensures CodeHolds(after, c) { CodeStays(w, a, c); }
    forall t: TerminalId ensures TerminalHolds(after, t) { TerminalStays(w, a, t); }
  }

  /** Every interleaving of redemptions, issues, cancellations, revocations and expiries keeps it all. */
  lemma {:induction false} RunKeeps(w: World, acts: seq<Action>)
    requires Inv(w)
    ensures Inv(Run(w, acts))
    ensures SameBranches(w.devices, Run(w, acts).devices)
  {
    hide Inv, Step;
    if |acts| > 0 {
      var before, a := Run(w, acts[..|acts| - 1]), acts[|acts| - 1];
      RunKeeps(w, acts[..|acts| - 1]);
      StepKeeps(before, a);
      BranchesStay(before, a);
    }
  }

  lemma StartIsGood()
    ensures Inv(START)
  {}

  // ---- what it means --------------------------------------------------------------------------------

  lemma {:induction false} AtMostOne<T>(s: seq<T>, f: T -> int)
    requires (forall i :: 0 <= i < |s| ==> f(s[i]) >= 0) && Total(s, f) <= 1
    ensures forall i, j :: 0 <= i < j < |s| ==> f(s[i]) + f(s[j]) <= 1
    ensures Total(s, f) >= 0
  {
    if |s| > 0 {
      var n := |s| - 1;
      TotalNonNegative(s[..n], f);
      AtMostOne(s[..n], f);
      forall i | 0 <= i < n ensures f(s[i]) + f(s[n]) <= 1 { TotalAtLeast(s[..n], i, f); }
    }
  }

  /** Each terminal is paired by at most one redemption, ever, whatever its codes. */
  lemma OnePairingPerTerminal(w: World, p: nat, q: nat)
    requires Inv(w) && p < q < |w.redemptions|
    requires w.redemptions[p].phase == w.redemptions[q].phase == Finished(Paired)
    ensures w.redemptions[p].seen.binding.terminal != w.redemptions[q].seen.binding.terminal
  {
    hide Bound, CodeHolds, Total;
    var t := w.redemptions[p].seen.binding.terminal;
    assert TerminalHolds(w, t);
    AtMostOne(w.redemptions, IsPairedAt(t));
  }

  /** A code is used exactly when some redemption of it paired; then exactly one did, and its device stands. */
  lemma UsedIff(w: World, c: nat)
    requires Inv(w) && c < |w.codes|
    ensures w.codes[c].status == Used <==>
      exists r :: 0 <= r < |w.redemptions| && w.redemptions[r].code == c && w.redemptions[r].phase == Finished(Paired)
    ensures w.codes[c].status == Used ==>
      var b := w.codes[c].binding;
      && b.terminal in w.devices
      && w.devices[b.terminal].tenant == b.tenant && w.devices[b.terminal].store == b.store
    ensures forall p, q :: 0 <= p < q < |w.redemptions| && w.redemptions[p].code == w.redemptions[q].code == c ==>
      !(w.redemptions[p].phase == w.redemptions[q].phase == Finished(Paired))
  {
    hide Bound, TerminalHolds, Total;
    assert CodeHolds(w, c);
    var f := IsPaired(c);
    AtMostOne(w.redemptions, f);
    if w.codes[c].status == Used {
      var r := TotalPositive(w.redemptions, f);
    }
    forall r | 0 <= r < |w.redemptions| && w.redemptions[r].code == c && w.redemptions[r].phase == Finished(Paired)
      ensures w.codes[c].status == Used
    {
      TotalAtLeast(w.redemptions, r, f);
    }
    forall p, q | 0 <= p < q < |w.redemptions| && w.redemptions[p].code == w.redemptions[q].code == c
      ensures !(w.redemptions[p].phase == w.redemptions[q].phase == Finished(Paired))
    {
      assert f(w.redemptions[p]) + f(w.redemptions[q]) <= 1;
    }
  }

  lemma FromStart(acts: seq<Action>)
    ensures Inv(Run(START, acts))
  {
    StartIsGood();
    RunKeeps(START, acts);
  }

  // ---- a terminal that has a device ------------------------------------------------------------------

  predicate PairedAt(w: World, r: nat, t: TerminalId) {
    r < |w.redemptions| && w.redemptions[r].seen.binding.terminal == t && w.redemptions[r].phase == Finished(Paired)
  }

  /**
   * A redemption keeps its code and the row it read, and one that paired stays so; a new
   * pairing needs a free terminal.
   */
  lemma RedemptionMoves(w: World, a: Action, r: nat)
    requires r < |Step(w, a).redemptions|
    ensures r < |w.redemptions| ==>
      Step(w, a).redemptions[r].code == w.redemptions[r].code && Step(w, a).redemptions[r].seen == w.redemptions[r].seen
    ensures forall t :: PairedAt(Step(w, a), r, t) ==> PairedAt(w, r, t) || t !in w.devices
    ensures |Step(w, a).redemptions| >= |w.redemptions|
  {
    hide PairedBranch, IsSpent;
  }

  /** Once a terminal has a device, revoked or not, no continuation ever pairs it again. */
  lemma {:induction false} NeverPairedAgain(w: World, acts: seq<Action>, t: TerminalId, r: nat)
    requires t in w.devices && PairedAt(Run(w, acts), r, t)
    ensures PairedAt(w, r, t)
  {
    hide Step;
    if |acts| > 0 {
      var before, a := Run(w, acts[..|acts| - 1]), acts[|acts| - 1];
      DevicesStay(w, acts[..|acts| - 1]);
      RedemptionMoves(before, a, r);
      NeverPairedAgain(w, acts[..|acts| - 1], t, r);
    }
  }

  lemma {:induction false} DevicesStay(w: World, acts: seq<Action>)
    ensures SameBranches(w.devices, Run(w, acts).devices)
  {
    hide Step;
    if |acts| > 0 {
      DevicesStay(w, acts[..|acts| - 1]);
      BranchesStay(Run(w, acts[..|acts| - 1]), acts[|acts| - 1]);
    }
  }

  lemma {:induction false} SeenStays(w: World, acts: seq<Action>, r: nat)
    requires r < |w.redemptions|
    ensures r < |Run(w, acts).redemptions|
    ensures Run(w, acts).redemptions[r].code == w.redemptions[r].code
    ensures Run(w, acts).redemptions[r].seen == w.redemptions[r].seen
  {
    hide Step;
    if |acts| > 0 {
      SeenStays(w, acts[..|acts| - 1], r);
      var before, a := Run(w, acts[..|acts| - 1]), acts[|acts| - 1];
      RedemptionsStay(before, a);
      RedemptionMoves(before, a, r);
    }
  }

  lemma RedemptionsStay(w: World, a: Action)
    ensures |Step(w, a).redemptions| >= |w.redemptions|
  {}

  /** A device that the branch lookup does not see. */
  predicate HiddenDevice(devices: map<TerminalId, Device>, b: Binding) {
    b.terminal in devices && (devices[b.terminal].revoked || devices[b.terminal].tenant != b.tenant)
  }

  /** Some redemption paired the terminal after `was` and by `w`. */
  predicate PairedBetween(was: World, w: World, t: TerminalId) {
    exists p: nat :: p < |w.redemptions| && PairedAt(w, p, t) && !PairedAt(was, p, t)
  }

  /** A device appears at a terminal only by a redemption pairing it. */
  lemma DeviceByPairing(was: World, w: World, t: TerminalId)
    requires TerminalHolds(was, t) && TerminalHolds(w, t) && t !in was.devices
    ensures t in w.devices <==> PairedBetween(was, w, t)
  {
    hide Total;
    var f := IsPairedAt(t);
    if t in w.devices {
      var p := TotalPositive(w.redemptions, f);
      if PairedAt(was, p, t) { TotalAtLeast(was.redemptions, p, f); }
      assert PairedAt(w, p, t);
    }
    if p: nat :| p < |w.redemptions| && PairedAt(w, p, t) && !PairedAt(was, p, t) {
      TotalAtLeast(w.redemptions, p, f);
    }
  }

  /**
   * A redemption that passed the branch lookup is told the terminal is taken exactly when its
   * code can still be burned and either the lookup had missed a device, because it was
   * revoked or another tenant's, or someone paired the terminal in between. The code then
   * stays pending.
   */
  lemma BurnRefusedIff(was: World, r: nat, acts: seq<Action>)
    requires Inv(was) && r < |was.redemptions| && was.redemptions[r].phase == Unspent
    requires PairedBranch(was.devices, was.redemptions[r].seen.binding).None?
    requires var w := Run(Step(was, Advance(r)), acts); r < |w.redemptions| && w.redemptions[r].phase == Clear
    ensures var w := Run(Step(was, Advance(r)), acts);
            var after, c, b := Step(w, Advance(r)), was.redemptions[r].code, was.redemptions[r].seen.binding;
            && c < |w.codes| && c < |after.codes|
            && (after.redemptions[r].phase == Finished(AlreadyPaired) <==>
                  && w.codes[c].status == Pending && w.now < w.codes[c].expiresAt
                  && (HiddenDevice(was.devices, b) || PairedBetween(was, w, b.terminal)))
            && (after.redemptions[r].phase == Finished(AlreadyPaired) ==>
                  after.codes == w.codes && after.devices == w.devices && after.codes[c].status == Pending)
  {
    hide CodeHolds, Total, RedemptionHolds, SameBranches;
    var looked, t := Step(was, Advance(r)), was.redemptions[r].seen.binding.terminal;
    var w := Run(looked, acts);
    assert RedemptionHolds(was.codes, was.redemptions[r]);
    CodeBound(was, r);
    StepKeeps(was, Advance(r));
    RunKeeps(looked, acts);
    RedemptionMoves(was, Advance(r), r);
    SeenStays(looked, acts, r);
    CodeBound(w, r);
    if t in was.devices { SameDevices(was, looked, w, t); } else { DeviceByPairing(was, w, t); }
    if p: nat :| p < |w.redemptions| && PairedAt(w, p, t) && !PairedAt(was, p, t) {
      PairedHasDevice(w, p, t);
    }
  }

  lemma CodeBound(w: World, r: nat)
    requires Bound(w) && r < |w.redemptions|
    ensures w.redemptions[r].code < |w.codes|
  {}

  lemma SameDevices(was: World, looked: World, w: World, t: TerminalId)
    requires looked.devices == was.devices && SameBranches(looked.devices, w.devices) && t in was.devices
    ensures t in w.devices
  {}

  lemma PairedHasDevice(w: World, p: nat, t: TerminalId)
    requires TerminalHolds(w, t) && PairedAt(w, p, t)
    ensures t in w.devices
  {
    TotalAtLeast(w.redemptions, p, IsPairedAt(t));
  }

  lemma {:induction false} RunConcat(w: World, xs: seq<Action>, ys: seq<Action>)
    ensures Run(w, xs + ys) == Run(Run(w, xs), ys)
  {
    if |ys| == 0 {
      assert xs + ys == xs;
    } else {
      assert (xs + ys)[..|xs + ys| - 1] == xs + ys[..|ys| - 1];
      RunConcat(w, xs, ys[..|ys| - 1]);
    }
  }

  lemma RunTwo(w: World, a: Action, b: Action)
    ensures Run(w, [a, b]) == Step(Step(w, a), b)
  {
    assert [a, b][..1] == [a] && [a][..0] == [];
    assert Run(w, []) == w && Run(w, [a]) == Step(w, a);
  }

  /** Two steps of a redemption that finds its code pending and its terminal free, and the lookup. */
  lemma ReachClear(w: World, r: nat)
    requires r < |w.redemptions| && w.redemptions[r].phase == Found && w.redemptions[r].code < |w.codes|
    requires var d := w.redemptions[r];
             w.codes[d.code].attempts == 0 && !IsSpent(d.seen, w.now) && d.seen.binding.terminal !in w.devices
    ensures var d := w.redemptions[r];
            Run(w, [Advance(r), Advance(r)] + [Advance(r)]) ==
            w.(codes := w.codes[d.code := w.codes[d.code].(attempts := 1)],
               redemptions := w.redemptions[r := d.(turn := Some(1), phase := Clear)])
  {
    RunTwo(w, Advance(r), Advance(r));
    assert ([Advance(r), Advance(r)] + [Advance(r)])[..2] == [Advance(r), Advance(r)];
  }

  /** Two codes for one terminal, both past the lookup before either burns. */
  const RACING_CODES: seq<Action> :=
    [Issue(Binding(1, 2, 3), 100), Issue(Binding(1, 2, 3), 100)] + [Find(0), Find(1)]
    + ([Advance(0), Advance(0)] + [Advance(0)]) + ([Advance(1), Advance(1)] + [Advance(1)]) + [Advance(0), Advance(1)]

  /** The first pairs; the second burns nothing and its code is pending still. */
  lemma RacingCodesExample()
    ensures var w := Run(START, RACING_CODES);
            && |w.redemptions| == 2 && |w.codes| == 2
            && w.redemptions[0].phase == Finished(Paired) && w.codes[0].status == Used
            && w.redemptions[1].phase == Finished(AlreadyPaired) && w.codes[1].status == Pending
  {
    hide Run;
    var issue, find := [Issue(Binding(1, 2, 3), 100), Issue(Binding(1, 2, 3), 100)], [Find(0), Find(1)];
    var one, two := [Advance(0), Advance(0)] + [Advance(0)], [Advance(1), Advance(1)] + [Advance(1)];
    RunConcat(START, issue + find + one + two, [Advance(0), Advance(1)]);
    RunConcat(START, issue + find + one, two);
    RunConcat(START, issue + find, one);
    RunConcat(START, issue, find);
    RunTwo(START, issue[0], issue[1]);
    var code := Code(Binding(1, 2, 3), Pending, 100, 0, None);
    assert Run(START, issue) == World([code, code], map[], [], 0);
    RunTwo(Run(START, issue), Find(0), Find(1));
    var found := Run(START, issue + find);
    assert found == World([code, code], map[], [Redemption(0, code, None, Found), Redemption(1, code, None, Found)], 0);
    ReachClear(found, 0);
    ReachClear(Run(found, one), 1);
    RunTwo(Run(Run(found, one), two), Advance(0), Advance(1));
  }

  // ---- one redemption with nobody interleaved --------------------------------------------------------

  /** A redemption's transactions one after the other. */
  function PairAlone(w: World, c: nat): World {
    var r := |w.redemptions|;
    AdvanceTwice(AdvanceTwice(Step(w, Find(c)), r), r)
  }

  function AdvanceTwice(w: World, r: nat): World { Step(Step(w, Advance(r)), Advance(r)) }

  /** Each answer of an uninterrupted redemption, and what it leaves in the tables. */
  lemma PairAloneIff(w: World, c: nat)
    requires Bound(w) && c < |w.codes|
    ensures var after, code := PairAlone(w, c), w.codes[c];
            var b, r := code.binding, |w.redemptions|;
            var redeemable := code.attempts < 5 && code.status == Pending && w.now < code.expiresAt;
            var taken := b.terminal in w.devices;
            var seen := taken && !w.devices[b.terminal].revoked && w.devices[b.terminal].tenant == b.tenant;
            && |after.redemptions| == r + 1 && after.redemptions[r].phase.Finished?
            && var reply := after.redemptions[r].phase.reply;
               && (reply == Paired <==> redeemable && !taken)
               && (reply == RateLimited <==> code.attempts >= 5)
               && (reply == Expired <==> code.attempts < 5 && (code.status != Pending || code.expiresAt <= w.now))
               && (reply == BranchMismatch <==> redeemable && seen && w.devices[b.terminal].store != b.store)
               && (reply == AlreadyPaired <==> redeemable && taken && (seen ==> w.devices[b.terminal].store == b.store))
               && (if reply == Paired then
                     && after.codes == w.codes[c := Code(b, Used, code.expiresAt, code.attempts + 1, Some(b.terminal))]
                     && after.devices == w.devices[b.terminal := Device(b.tenant, b.store, false)]
                   else
                     && after.codes == w.codes[c := code.(attempts := code.attempts + 1)]
                     && after.devices == w.devices)
  {}

  /** Over every run a code is used only by a step taken while it was pending and not past its expiry. */
  lemma UsedInTime(w: World, a: Action, c: nat)
    requires Bound(w) && c < |w.codes| && w.codes[c].status != Used
    ensures c < |Step(w, a).codes|
    ensures Step(w, a).codes[c].status == Used ==>
      && w.codes[c].status == Pending && w.now < w.codes[c].expiresAt
      && a.Advance? && a.r < |w.redemptions| && w.redemptions[a.r].code == c
      && Step(w, a).redemptions[a.r].phase == Finished(Paired)
  {
    hide PairedBranch;
  }
}
