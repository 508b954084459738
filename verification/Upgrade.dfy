/** The upgrade governance that protocol-config, issuer-registry and proof-registry each carry in identical form. */
module Upgrade {
  import opened Shared

  /** The part of the instance storage, plus the event log, that all three contracts have in common.
      `version` is 0 while `ContractVersion` has not been stored. */
  datatype Core = Core(admin: Option<Address>, version: u32, allowed: map<Hash, u32>, log: seq<Event>)

  const EMPTY_CORE := Core(None, 0, map[], [])

  datatype Call = ApproveUpgrade(hash: Hash, newVersion: u32) | RevokeUpgrade(hash: Hash) | UpgradeContract(hash: Hash)

  predicate AdminAuthorized(c: Core, auth: set<Address>) {
    c.admin.Some? && c.admin.value in auth
  }

  function Exec(c: Core, env: Env, call: Call): Result<Core> {
    if !AdminAuthorized(c, env.auth) then
      Result(c, Trap)
    else
      var admin := c.admin.value;
      match call
      case ApproveUpgrade(h, v) =>
        if v <= c.version then Result(c, Trap)
        else Result(c.(allowed := c.allowed[h := v], log := c.log + [UpgradeAllowlisted(h, v, admin)]), Ok(Unit))
      case RevokeUpgrade(h) =>
        Result(c.(allowed := c.allowed - {h}, log := c.log + [UpgradeRevoked(h, admin)]), Ok(Unit))
      case UpgradeContract(h) =>
        if h !in c.allowed || c.allowed[h] <= c.version then Result(c, Trap)
        else
          var v := c.allowed[h];
          Result(c.(allowed := c.allowed - {h}, version := v, log := c.log + [ContractUpgraded(h, c.version, v, admin)]),
                 Ok(Unit))
  }

  /** The governance entry points as the contracts execute them, writing instance storage step by step. */
  class UpgradableContract {
    var admin: Option<Address>
    var version: u32
    var allowed: map<Hash, u32>
    var log: seq<Event>

    ghost function State(): Core
      reads this
    {
      Core(admin, version, allowed, log)
    }

    constructor ()
      ensures State() == EMPTY_CORE
    {
      admin, version, allowed, log := None, 0, map[], [];
    }

    method ApproveUpgrade(env: Env, hash: Hash, newVersion: u32) returns (r: Reply)
      modifies this
      ensures Result(State(), r) == Exec(old(State()), env, Call.ApproveUpgrade(hash, newVersion))
    {
      if admin.None? || admin.value !in env.auth {
        return Trap;
      }
      if newVersion <= version {
        return Trap;
      }
      allowed := allowed[hash := newVersion];
      log := log + [UpgradeAllowlisted(hash, newVersion, admin.value)];
      return Ok(Unit);
    }

    method RevokeUpgrade(env: Env, hash: Hash) returns (r: Reply)
      modifies this
      ensures Result(State(), r) == Exec(old(State()), env, Call.RevokeUpgrade(hash))
    {
      if admin.None? || admin.value !in env.auth {
        return Trap;
      }
      allowed := allowed - {hash};
      log := log + [UpgradeRevoked(hash, admin.value)];
      return Ok(Unit);
    }

    method UpgradeContract(env: Env, hash: Hash) returns (r: Reply)
      modifies this
      ensures Result(State(), r) == Exec(old(State()), env, Call.UpgradeContract(hash))
    {
      if admin.None? || admin.value !in env.auth {
        return Trap;
      }
      if hash !in allowed {
        return Trap;
      }
      var newVersion := allowed[hash];
      var oldVersion := version;
      if newVersion <= oldVersion {
        return Trap;
      }
      allowed := allowed - {hash};
      version := newVersion;
      log := log + [ContractUpgraded(hash, oldVersion, newVersion, admin.value)];
      return Ok(Unit);
    }
  }
}
