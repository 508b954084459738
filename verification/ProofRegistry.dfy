/** contracts/proof-registry/src/lib.rs: proof records, and registration gated by the two referenced contracts. */
module ProofRegistry {
  import opened Shared
  import Upgrade
  import PC = ProtocolConfig
  import IR = IssuerRegistry

  /** `live` gives the live-until ledger of each `Proof` entry. */
  datatype State = State(
    core: Upgrade.Core,
    issuerRegistry: Option<Address>,
    protocolConfig: Option<Address>,
    proofs: map<Hash, ProofRecord>,
    live: map<Hash, nat>)

  const EMPTY := State(Upgrade.EMPTY_CORE, None, None, map[], map[])

  datatype Call =
    | Initialize(admin: Address, issuerRegistry: Address, protocolConfig: Address)
    | RegisterProof(id: Hash, commitment: Hash, issuer: Address, schema: u32, expiresAt: nat)
    | RevokeProof(id: Hash)
    | AdminRevokeProof(id: Hash)
    | GetProof(id: Hash)
    | IsValidProof(id: Hash)
    | IsRevoked(id: Hash)
    | Govern(call: Upgrade.Call)

  /** The effect of a registration on all three contracts. A dependency is `None` when the stored address does not
      lead to a contract of the expected kind; calling it traps. */
  datatype Registration = Registration(
    proofs: State, config: Option<PC.State>, issuers: Option<IR.State>, reply: Reply)

  predicate ValidDependencies(env: Env, issuerRegistry: Address, protocolConfig: Address) {
    && IsValidPrincipal(issuerRegistry) && IsValidPrincipal(protocolConfig)
    && issuerRegistry != env.self && protocolConfig != env.self && issuerRegistry != protocolConfig
  }

  function Initialized(s: State, env: Env, admin: Address, issuerRegistry: Address, protocolConfig: Address): Result<State> {
    if s.core.admin.Some? then Result(s, Err(AlreadyInitialized))
    else if !IsValidPrincipal(admin) then Result(s, Err(InvalidInput))
    else if !ValidDependencies(env, issuerRegistry, protocolConfig) then Result(s, Err(InvalidInput))
    else if admin !in env.auth then Result(s, Trap)
    else Result(s.(core := s.core.(admin := Some(admin), version := 1),
                   issuerRegistry := Some(issuerRegistry), protocolConfig := Some(protocolConfig)),
                Ok(Unit))
  }

  /** Everything `register_proof` checks before it calls another contract. */
  function LocalCheck(s: State, env: Env, call: Call): Reply
    requires call.RegisterProof?
  {
    if !IsValidPrincipal(call.issuer) then Err(InvalidProofAddress)
    else if s.protocolConfig.None? || s.issuerRegistry.None? then Err(ProofNotFound)
    else if call.issuer == env.self || Some(call.issuer) == s.protocolConfig || Some(call.issuer) == s.issuerRegistry then
      Err(InvalidProofAddress)
    else if call.issuer !in env.auth then Trap
    else if call.schema == 0 then Err(InvalidSchemaVersion)
    else if call.expiresAt <= env.now then Err(ProofExpired)
    else Ok(Unit)
  }

  function NewRecord(env: Env, call: Call): ProofRecord
    requires call.RegisterProof?
  {
    ProofRecord(call.id, call.commitment, call.issuer, ProofStatus.Active, call.schema, call.expiresAt, env.now, 0)
  }

  function Registered(s: State, config: Option<PC.State>, issuers: Option<IR.State>, env: Env, call: Call): Registration
    requires call.RegisterProof?
  {
    var check := LocalCheck(s, env, call);
    if !check.Ok? then Registration(s, config, issuers, check)
    else if config.None? then Registration(s, config, issuers, Trap)
    else if config.value.paused then Registration(s, config, issuers, Err(InvalidSchemaVersion))
    else
      var query := PC.Exec(config.value, env.(self := s.protocolConfig.value), PC.IsSchemaVersionApproved(call.schema));
      var config' := Some(query.state);
      if !query.reply.value.flag then Registration(s, config', issuers, Err(SchemaVersionNotApproved))
      else if issuers.None? then Registration(s, config', issuers, Trap)
      else
        var active := IR.Exec(issuers.value, env.(self := s.issuerRegistry.value), IR.IsActiveAddress(call.issuer));
        var issuers' := Some(active.state);
        if !active.reply.value.flag then Registration(s, config', issuers', Err(InvalidSchemaVersion))
        else if call.id in s.proofs then Registration(s, config', issuers', Err(ProofAlreadyRegistered))
        else Registration(Stored(s, env, call.id, NewRecord(env, call)), config', issuers', Ok(Unit))
  }

  /** Storing `record` under `id` and extending that entry. */
  function Stored(s: State, env: Env, id: Hash, record: ProofRecord): State {
    s.(proofs := s.proofs[id := record],
       live := Extended(Written(s.live, id, env.sequence), id, env.sequence))
  }

  function Revoked(s: State, env: Env, id: Hash, byAdmin: bool): Result<State> {
    if id !in s.proofs then Result(s, Err(ProofNotFound))
    else if byAdmin && s.core.admin.None? then Result(s, Err(ProofNotFound))
    else if (if byAdmin then s.core.admin.value else s.proofs[id].issuer) !in env.auth then Result(s, Trap)
    else if s.proofs[id].status.Revoked? then Result(s, Err(ProofAlreadyRevoked))
    else
      var record := s.proofs[id].(status := ProofStatus.Revoked, revokedAt := env.now);
      Result(Stored(s, env, id, record), Ok(Unit))
  }

  function Fetched(s: State, env: Env, id: Hash): Result<State> {
    if id !in s.proofs then Result(s, Err(ProofNotFound))
    else Result(s.(live := Extended(s.live, id, env.sequence)), Ok(Proof(s.proofs[id])))
  }

  predicate ValidAt(s: State, id: Hash, now: nat) {
    id in s.proofs && s.proofs[id].status.Active? && now <= s.proofs[id].expiresAt
  }

  predicate RevokedIn(s: State, id: Hash) {
    id in s.proofs && s.proofs[id].status.Revoked?
  }

  /** Every call but `register_proof`, which also needs its two dependencies. */
  function Exec(s: State, env: Env, call: Call): Result<State>
    requires !call.RegisterProof?
  {
    match call
    case Initialize(a, ir, pc) => Initialized(s, env, a, ir, pc)
    case RevokeProof(id) => Revoked(s, env, id, false)
    case AdminRevokeProof(id) => Revoked(s, env, id, true)
    case GetProof(id) => Fetched(s, env, id)
    case IsValidProof(id) => Result(Fetched(s, env, id).state, Ok(Flag(ValidAt(s, id, env.now))))
    case IsRevoked(id) => Result(Fetched(s, env, id).state, Ok(Flag(RevokedIn(s, id))))
    case Govern(c) => var r := Upgrade.Exec(s.core, env, c); Result(s.(core := r.state), r.reply)
  }

  class ProofRegistryContract {
    var core: Upgrade.Core
    var issuerRegistry: Option<Address>
    var protocolConfig: Option<Address>
    var proofs: map<Hash, ProofRecord>
    var live: map<Hash, nat>

    ghost function Current(): State
      reads this
    {
      State(core, issuerRegistry, protocolConfig, proofs, live)
    }

    constructor ()
      ensures Current() == EMPTY
    {
      core, issuerRegistry, protocolConfig, proofs, live := Upgrade.EMPTY_CORE, None, None, map[], map[];
    }

    method Initialize(env: Env, admin: Address, issuerRegistry: Address, protocolConfig: Address) returns (r: Reply)
      modifies this
      ensures Result(Current(), r) == Exec(old(Current()), env, Call.Initialize(admin, issuerRegistry, protocolConfig))
    {
      if core.admin.Some? { return Err(AlreadyInitialized); }
      if !IsValidPrincipal(admin) { return Err(InvalidInput); }
      if !IsValidPrincipal(issuerRegistry) || !IsValidPrincipal(protocolConfig) { return Err(InvalidInput); }
      if issuerRegistry == env.self || protocolConfig == env.self || issuerRegistry == protocolConfig {
        return Err(InvalidInput);
      }
      if admin !in env.auth { return Trap; }
      core := core.(admin := Some(admin));
      this.issuerRegistry := Some(issuerRegistry);
      this.protocolConfig := Some(protocolConfig);
      core := core.(version := 1);
      return Ok(Unit);
    }

    /** `config` and `issuers` are the contracts the host finds at the two stored addresses, or null. */
    method RegisterProof(env: Env, id: Hash, commitment: Hash, issuer: Address, schema: u32, expiresAt: nat,
                         config: PC.ProtocolConfigContract?, issuers: IR.IssuerRegistryContract?)
      returns (r: Reply)
      modifies this, config, issuers
      ensures
        Registration(Current(), ConfigOf(config), IssuersOf(issuers), r)
        == Registered(old(Current()), old(ConfigOf(config)), old(IssuersOf(issuers)), env,
                      Call.RegisterProof(id, commitment, issuer, schema, expiresAt))
    {
      if !IsValidPrincipal(issuer) { return Err(InvalidProofAddress); }
      if protocolConfig.None? { return Err(ProofNotFound); }
      if issuerRegistry.None? { return Err(ProofNotFound); }
      if issuer == env.self || issuer == protocolConfig.value || issuer == issuerRegistry.value {
        return Err(InvalidProofAddress);
      }
      if issuer !in env.auth { return Trap; }
      if schema == 0 { return Err(InvalidSchemaVersion); }
      if expiresAt <= env.now { return Err(ProofExpired); }

      if config == null { return Trap; }
      if config.paused { return Err(InvalidSchemaVersion); }
      var approved := config.IsSchemaVersionApproved(env.(self := protocolConfig.value), schema);
      if !approved { return Err(SchemaVersionNotApproved); }

      if issuers == null { return Trap; }
      var active := issuers.IsActiveAddress(env.(self := issuerRegistry.value), issuer);
      if !active { return Err(InvalidSchemaVersion); }

      if id in proofs { return Err(ProofAlreadyRegistered); }
      proofs := proofs[id := ProofRecord(id, commitment, issuer, ProofStatus.Active, schema, expiresAt, env.now, 0)];
      live := Written(live, id, env.sequence);
      live := Extended(live, id, env.sequence);
      return Ok(Unit);
    }

    method SetRevoked(env: Env, id: Hash, byAdmin: bool) returns (r: Reply)
      modifies this
      ensures Result(Current(), r)
           == Exec(old(Current()), env, if byAdmin then Call.AdminRevokeProof(id) else Call.RevokeProof(id))
    {
      if id !in proofs { return Err(ProofNotFound); }
      var record := proofs[id];
      if byAdmin {
        if core.admin.None? { return Err(ProofNotFound); }
        if core.admin.value !in env.auth { return Trap; }
      } else {
        if record.issuer !in env.auth { return Trap; }
      }
      if record.status.Revoked? { return Err(ProofAlreadyRevoked); }
      record := record.(status := ProofStatus.Revoked);
      record := record.(revokedAt := env.now);
      proofs := proofs[id := record];
      live := Written(live, id, env.sequence);
      live := Extended(live, id, env.sequence);
      return Ok(Unit);
    }

    method GetProof(env: Env, id: Hash) returns (r: Reply)
      modifies this`live
      ensures Result(Current(), r) == Exec(old(Current()), env, Call.GetProof(id))
    {
      if id !in proofs { return Err(ProofNotFound); }
      live := Extended(live, id, env.sequence);
      return Ok(Proof(proofs[id]));
    }

    method IsValidProof(env: Env, id: Hash) returns (valid: bool)
      modifies this`live
      ensures Result(Current(), Ok(Flag(valid))) == Exec(old(Current()), env, Call.IsValidProof(id))
    {
      var r := GetProof(env, id);
      return r.Ok? && r.value.proof.status.Active? && env.now <= r.value.proof.expiresAt;
    }

    method IsRevoked(env: Env, id: Hash) returns (revoked: bool)
      modifies this`live
      ensures Result(Current(), Ok(Flag(revoked))) == Exec(old(Current()), env, Call.IsRevoked(id))
    {
      var r := GetProof(env, id);
      return r.Ok? && r.value.proof.status.Revoked?;
    }
  }

  ghost function ConfigOf(c: PC.ProtocolConfigContract?): Option<PC.State>
    reads c
  {
    if c == null then None else Some(c.Current())
  }

  ghost function IssuersOf(c: IR.IssuerRegistryContract?): Option<IR.State>
    reads c
  {
    if c == null then None else Some(c.Current())
  }
}
