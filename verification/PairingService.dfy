/** The pairing repository and service over their tables, statement by statement. */
module PairingService {
  import opened Basics
  import opened Pairing

  datatype Provision = Ok | LostRace | AlreadyProvisioned

  class PairingRepository {
    var codes: seq<Code>
    var devices: map<TerminalId, Device>

    ghost function Tables(now: int): World
      reads this
    {
      World(codes, devices, [], now)
    }

    method RecordAttempt(c: nat) returns (attempts: nat)
      requires c < |codes|
      modifies this`codes
      ensures attempts == old(codes)[c].attempts + 1
      ensures codes == old(codes)[c := old(codes)[c].(attempts := attempts)]
    {
      attempts := codes[c].attempts + 1;
      codes := codes[c := codes[c].(attempts := attempts)];
    }

    method FindPairedBranch(terminal: TerminalId, tenant: TenantId) returns (branch: Option<StoreId>)
      ensures branch.Some? <==>
        terminal in devices && devices[terminal].tenant == tenant && !devices[terminal].revoked
      ensures branch.Some? ==> branch.value == devices[terminal].store
    {
      if terminal !in devices || devices[terminal].tenant != tenant { return None; }
      if devices[terminal].revoked { return None; }
      branch := Some(devices[terminal].store);
    }

    /** One transaction: the refused insert rolls the burn back with it. */
    method BurnAndProvision(c: nat, b: Binding, now: int) returns (outcome: Provision)
      requires c < |codes|
      modifies this
      ensures outcome == LostRace <==> old(codes)[c].status != Pending || old(codes)[c].expiresAt <= now
      ensures outcome == Ok <==>
        old(codes)[c].status == Pending && now < old(codes)[c].expiresAt && b.terminal !in old(devices)
      ensures if outcome == Ok then
                && codes == old(codes)[c := old(codes)[c].(status := Used, device := Some(b.terminal))]
                && devices == old(devices)[b.terminal := Device(b.tenant, b.store, false)]
              else
                codes == old(codes) && devices == old(devices)
    {
      var begin := codes;
      if codes[c].status != Pending || codes[c].expiresAt <= now { return LostRace; }
      codes := codes[c := codes[c].(status := Used)];
      if b.terminal in devices {
        codes := begin;                        // the aborted transaction commits as a ROLLBACK
        return AlreadyProvisioned;
      }
      devices := devices[b.terminal := Device(b.tenant, b.store, false)];
      codes := codes[c := codes[c].(device := Some(b.terminal))];
      outcome := Ok;
    }
  }

  /** `c` is the code's position, none when the hash matches no row; no reply means invalid. */
  method Pair(repo: PairingRepository, c: Option<nat>, now: int) returns (reply: Option<Reply>)
    requires c.Some? ==> c.value < |repo.codes|
    modifies repo
    ensures reply.None? <==> c.None?
    ensures c.None? ==> repo.codes == old(repo.codes) && repo.devices == old(repo.devices)
    ensures c.Some? ==>
      var after := PairAlone(old(repo.Tables(now)), c.value);
      && repo.codes == after.codes && repo.devices == after.devices
      && |after.redemptions| == 1 && after.redemptions[0].phase == Finished(reply.value)
  {
    if c.None? { return None; }
    var code := repo.codes[c.value];
    var attempts := repo.RecordAttempt(c.value);
    if attempts > MAX_ATTEMPTS_PER_CODE { return Some(RateLimited); }
    if IsSpent(code, now) { return Some(Expired); }
    var pairedBranch := repo.FindPairedBranch(code.binding.terminal, code.binding.tenant);
    if pairedBranch.Some? {
      return Some(if pairedBranch.value == code.binding.store then AlreadyPaired else BranchMismatch);
    }
    var provision := repo.BurnAndProvision(c.value, code.binding, now);
    if provision == LostRace { return Some(Expired); }
    if provision == AlreadyProvisioned { return Some(AlreadyPaired); }
    reply := Some(Paired);
  }
}
