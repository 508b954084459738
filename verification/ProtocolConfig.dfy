/** contracts/protocol-config/src/lib.rs: admin, pause flag, schema approvals and the checked mutation counter. */
module ProtocolConfig {
  import opened Shared
  import Upgrade

  /** `paused` is false and `configVersion` is 0 while their keys are absent. `live` gives the live-until ledger of
      each `SchemaVersion` entry. */
  datatype State = State(core: Upgrade.Core, paused: bool, configVersion: u32, schemas: map<u32, bool>, live: map<u32, nat>)

  const EMPTY := State(Upgrade.EMPTY_CORE, false, 0, map[], map[])

  datatype Call =
    | Initialize(admin: Address)
    | SetAdmin(newAdmin: Address)
    | Pause
    | Unpause
    | ApproveSchemaVersion(schema: u32)
    | DeprecateSchemaVersion(schema: u32)
    | IsSchemaVersionApproved(schema: u32)
    | Govern(call: Upgrade.Call)

  /** The calls that end in `bump_config_version`. */
  predicate IsMutation(call: Call) {
    call.SetAdmin? || call.Pause? || call.Unpause? || call.ApproveSchemaVersion? || call.DeprecateSchemaVersion?
  }

  function Initialized(s: State, env: Env, admin: Address): Result<State> {
    if s.core.admin.Some? then Result(s, Err(AlreadyInitialized))
    else if !IsValidPrincipal(admin) then Result(s, Err(InvalidInput))
    else if admin !in env.auth then Result(s, Trap)
    else Result(s.(core := s.core.(admin := Some(admin), version := 1, log := s.core.log + [Event.Initialized(admin)]),
                   paused := false, configVersion := 1),
                Ok(Unit))
  }

  /** `bump_config_version` followed by publishing `event`; `s` already holds the caller's write. */
  function Bumped(s: State, event: Event): Result<State> {
    if s.configVersion == U32_MAX then Result(s, Trap)
    else Result(s.(configVersion := s.configVersion + 1, core := s.core.(log := s.core.log + [event])), Ok(Unit))
  }

  function SchemaSet(s: State, env: Env, schema: u32, approved: bool): State {
    s.(schemas := s.schemas[schema := approved],
       live := Extended(Written(s.live, schema, env.sequence), schema, env.sequence))
  }

  function Mutated(s: State, env: Env, call: Call): Result<State>
    requires IsMutation(call)
  {
    if s.core.admin.None? then Result(s, Err(NotInitialized))
    else if call.SetAdmin? && !IsValidPrincipal(call.newAdmin) then Result(s, Err(InvalidInput))
    else if s.core.admin.value !in env.auth then Result(s, Trap)
    else
      match call
      case SetAdmin(a) => Bumped(s.(core := s.core.(admin := Some(a))), AdminChanged(a))
      case Pause => Bumped(s.(paused := true), Paused)
      case Unpause => Bumped(s.(paused := false), Unpaused)
      case ApproveSchemaVersion(v) =>
        if v == 0 then Result(s, Err(InvalidInput)) else Bumped(SchemaSet(s, env, v, true), SchemaApproved(v))
      case DeprecateSchemaVersion(v) =>
        if v == 0 then Result(s, Err(InvalidInput)) else Bumped(SchemaSet(s, env, v, false), SchemaDeprecated(v))
  }

  predicate SchemaApprovedIn(s: State, schema: u32) {
    schema != 0 && schema in s.schemas && s.schemas[schema]
  }

  function SchemaQueried(s: State, env: Env, schema: u32): Result<State> {
    Result(if schema != 0 && schema in s.schemas then s.(live := Extended(s.live, schema, env.sequence)) else s,
           Ok(Flag(SchemaApprovedIn(s, schema))))
  }

  function Exec(s: State, env: Env, call: Call): Result<State> {
    match call
    case Initialize(a) => Initialized(s, env, a)
    case IsSchemaVersionApproved(v) => SchemaQueried(s, env, v)
    case Govern(c) => var r := Upgrade.Exec(s.core, env, c); Result(s.(core := r.state), r.reply)
    case _ => Mutated(s, env, call)
  }

  class ProtocolConfigContract {
    var core: Upgrade.Core
    var paused: bool
    var configVersion: u32
    var schemas: map<u32, bool>
    var live: map<u32, nat>

    ghost function Current(): State
      reads this
    {
      State(core, paused, configVersion, schemas, live)
    }

    constructor ()
      ensures Current() == EMPTY
    {
      core, paused, configVersion, schemas, live := Upgrade.EMPTY_CORE, false, 0, map[], map[];
    }

    method Initialize(env: Env, admin: Address) returns (r: Reply)
      modifies this
      ensures Result(Current(), r) == Exec(old(Current()), env, Call.Initialize(admin))
    {
      if core.admin.Some? { return Err(AlreadyInitialized); }
      if !IsValidPrincipal(admin) { return Err(InvalidInput); }
      if admin !in env.auth { return Trap; }
      core := core.(admin := Some(admin));
      paused := false;
      configVersion := 1;
      core := core.(version := 1);
      core := core.(log := core.log + [Event.Initialized(admin)]);
      return Ok(Unit);
    }

    /** The checked increment: a trap here comes after the caller's own write. */
    method BumpConfigVersion() returns (ok: bool)
      modifies this`configVersion
      ensures ok == (old(configVersion) < U32_MAX)
      ensures configVersion == if ok then old(configVersion) + 1 else old(configVersion)
    {
      if configVersion == U32_MAX { return false; }
      configVersion := configVersion + 1;
      return true;
    }

    method SetAdmin(env: Env, newAdmin: Address) returns (r: Reply)
      modifies this
      ensures Result(Current(), r) == Exec(old(Current()), env, Call.SetAdmin(newAdmin))
    {
      if core.admin.None? { return Err(NotInitialized); }
      if !IsValidPrincipal(newAdmin) { return Err(InvalidInput); }
      if core.admin.value !in env.auth { return Trap; }
      core := core.(admin := Some(newAdmin));
      var ok := BumpConfigVersion();
      if !ok { return Trap; }
      core := core.(log := core.log + [AdminChanged(newAdmin)]);
      return Ok(Unit);
    }

    method Pause(env: Env) returns (r: Reply)
      modifies this
      ensures Result(Current(), r) == Exec(old(Current()), env, Call.Pause)
    {
      if core.admin.None? { return Err(NotInitialized); }
      if core.admin.value !in env.auth { return Trap; }
      paused := true;
      var ok := BumpConfigVersion();
      if !ok { return Trap; }
      core := core.(log := core.log + [Paused]);
      return Ok(Unit);
    }

    method Unpause(env: Env) returns (r: Reply)
      modifies this
      ensures Result(Current(), r) == Exec(old(Current()), env, Call.Unpause)
    {
      if core.admin.None? { return Err(NotInitialized); }
      if core.admin.value !in env.auth { return Trap; }
      paused := false;
      var ok := BumpConfigVersion();
      if !ok { return Trap; }
      core := core.(log := core.log + [Unpaused]);
      return Ok(Unit);
    }

    method ApproveSchemaVersion(env: Env, schema: u32) returns (r: Reply)
      modifies this
      ensures Result(Current(), r) == Exec(old(Current()), env, Call.ApproveSchemaVersion(schema))
    {
      if core.admin.None? { return Err(NotInitialized); }
      if core.admin.value !in env.auth { return Trap; }
      if schema == 0 { return Err(InvalidInput); }
      schemas := schemas[schema := true];
      live := Written(live, schema, env.sequence);
      live := Extended(live, schema, env.sequence);
      var ok := BumpConfigVersion();
      if !ok { return Trap; }
      core := core.(log := core.log + [SchemaApproved(schema)]);
      return Ok(Unit);
    }

    method DeprecateSchemaVersion(env: Env, schema: u32) returns (r: Reply)
      modifies this
      ensures Result(Current(), r) == Exec(old(Current()), env, Call.DeprecateSchemaVersion(schema))
    {
      if core.admin.None? { return Err(NotInitialized); }
      if core.admin.value !in env.auth { return Trap; }
      if schema == 0 { return Err(InvalidInput); }
      schemas := schemas[schema := false];
      live := Written(live, schema, env.sequence);
      live := Extended(live, schema, env.sequence);
      var ok := BumpConfigVersion();
      if !ok { return Trap; }
      core := core.(log := core.log + [SchemaDeprecated(schema)]);
      return Ok(Unit);
    }

    method IsSchemaVersionApproved(env: Env, schema: u32) returns (approved: bool)
      modifies this`live
      ensures Result(Current(), Ok(Flag(approved))) == Exec(old(Current()), env, Call.IsSchemaVersionApproved(schema))
    {
      if schema == 0 { return false; }
      approved := schema in schemas && schemas[schema];
      if schema in schemas {
        live := Extended(live, schema, env.sequence);
      }
    }
  }
}
