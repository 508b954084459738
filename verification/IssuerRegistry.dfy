/** contracts/issuer-registry/src/lib.rs: issuer records and the reverse address index. */
module IssuerRegistry {
  import opened Shared
  import Upgrade

  /** `issuers` and `index` are the `Issuer` and `AddressIssuer` entries; `issuerLive` and `indexLive` are their
      live-until ledgers. */
  datatype State = State(
    core: Upgrade.Core,
    issuers: map<Hash, IssuerRecord>,
    index: map<Address, Hash>,
    issuerLive: map<Hash, nat>,
    indexLive: map<Address, nat>)

  const EMPTY := State(Upgrade.EMPTY_CORE, map[], map[], map[], map[])

  /** `SetStatus` stands for suspend_issuer, reactivate_issuer and revoke_issuer. */
  datatype Call =
    | Initialize(admin: Address)
    | RegisterIssuer(id: Hash, address: Address, metadata: Hash)
    | UpdateIssuer(id: Hash, metadata: Hash)
    | SetStatus(id: Hash, status: IssuerStatus)
    | RotateIssuerAddress(id: Hash, newAddress: Address)
    | GetIssuer(id: Hash)
    | IsActiveIssuer(id: Hash)
    | IsActiveAddress(address: Address)
    | GetIssuerByAddress(address: Address)
    | Govern(call: Upgrade.Call)

  function Initialized(s: State, env: Env, admin: Address): Result<State> {
    if s.core.admin.Some? then Result(s, Err(AlreadyInitialized))
    else if !IsValidPrincipal(admin) then Result(s, Err(InvalidInput))
    else if admin !in env.auth then Result(s, Trap)
    else Result(s.(core := s.core.(admin := Some(admin), version := 1)), Ok(Unit))
  }

  function Published(s: State, event: Event): Result<State> {
    Result(s.(core := s.core.(log := s.core.log + [event])), Ok(Unit))
  }

  /** Storing `record` under `id` and extending that entry. */
  function Stored(s: State, env: Env, id: Hash, record: IssuerRecord): State {
    s.(issuers := s.issuers[id := record],
       issuerLive := Extended(Written(s.issuerLive, id, env.sequence), id, env.sequence))
  }

  /** Pointing `address` at `id` and extending that index entry. */
  function Bound(s: State, env: Env, address: Address, id: Hash): State {
    s.(index := s.index[address := id],
       indexLive := Extended(Written(s.indexLive, address, env.sequence), address, env.sequence))
  }

  function Unbound(s: State, address: Address): State {
    s.(index := s.index - {address}, indexLive := s.indexLive - {address})
  }

  function Registered(s: State, env: Env, id: Hash, address: Address, metadata: Hash): Result<State> {
    if s.core.admin.None? then Result(s, Err(IssuerNotFound))
    else if !IsValidPrincipal(address) then Result(s, Err(InvalidIssuerAddress))
    else if s.core.admin.value !in env.auth then Result(s, Trap)
    else if id in s.issuers then Result(s, Err(IssuerAlreadyRegistered))
    else if address in s.index then Result(s, Err(IssuerAddressAlreadyRegistered))
    else
      var record := IssuerRecord(id, address, metadata, IssuerStatus.Active, env.now, env.now);
      Published(Bound(Stored(s, env, id, record), env, address, id), IssuerRegistered(id, address, metadata, env.now))
  }

  function Updated(s: State, env: Env, id: Hash, metadata: Hash): Result<State> {
    if s.core.admin.None? then Result(s, Err(IssuerNotFound))
    else if s.core.admin.value !in env.auth then Result(s, Trap)
    else if id !in s.issuers then Result(s, Err(IssuerNotFound))
    else if s.issuers[id].status.Revoked? then Result(s, Err(IssuerIsRevoked))
    else
      var record := s.issuers[id].(metadata := metadata, updatedAt := env.now);
      Published(Stored(s, env, id, record), IssuerMetadataUpdated(id, metadata, env.now))
  }

  function StatusSet(s: State, env: Env, id: Hash, status: IssuerStatus): Result<State> {
    if s.core.admin.None? then Result(s, Err(IssuerNotFound))
    else if s.core.admin.value !in env.auth then Result(s, Trap)
    else if id !in s.issuers then Result(s, Err(IssuerNotFound))
    else if s.issuers[id].status.Revoked? && !status.Revoked? then Result(s, Err(InvalidTransition))
    else
      var record := s.issuers[id].(status := status, updatedAt := env.now);
      Published(Stored(s, env, id, record), IssuerStatusSet(id, status, env.now))
  }

  function Rotated(s: State, env: Env, id: Hash, newAddress: Address): Result<State> {
    if s.core.admin.None? then Result(s, Err(IssuerNotFound))
    else if !IsValidPrincipal(newAddress) then Result(s, Err(InvalidIssuerAddress))
    else if s.core.admin.value !in env.auth then Result(s, Trap)
    else if id !in s.issuers then Result(s, Err(IssuerNotFound))
    else if s.issuers[id].status.Revoked? then Result(s, Err(IssuerIsRevoked))
    else if newAddress == s.issuers[id].address then Result(s, Err(InvalidIssuerAddress))
    else if newAddress in s.index then Result(s, Err(IssuerAddressAlreadyRegistered))
    else
      var oldAddress := s.issuers[id].address;
      var record := s.issuers[id].(address := newAddress, updatedAt := env.now);
      Published(Bound(Stored(Unbound(s, oldAddress), env, id, record), env, newAddress, id),
                IssuerAddressRotated(id, oldAddress, newAddress, env.now))
  }

  function Fetched(s: State, env: Env, id: Hash): Result<State> {
    if id !in s.issuers then Result(s, Err(IssuerNotFound))
    else Result(s.(issuerLive := Extended(s.issuerLive, id, env.sequence)), Ok(Issuer(s.issuers[id])))
  }

  function IssuerQueried(s: State, env: Env, id: Hash): Result<State> {
    var r := Fetched(s, env, id);
    Result(r.state, Ok(Flag(r.reply.Ok? && s.issuers[id].status.Active?)))
  }

  /** `is_active_address` reads the index entry without extending it, then goes through the issuer record. */
  function AddressQueried(s: State, env: Env, address: Address): Result<State> {
    if address !in s.index then Result(s, Ok(Flag(false)))
    else IssuerQueried(s.(indexLive := Restored(s.indexLive, address, env.sequence)), env, s.index[address])
  }

  /** `get_issuer_by_address` extends the index entry but only reads the record. */
  function FetchedByAddress(s: State, env: Env, address: Address): Result<State> {
    if address !in s.index then Result(s, Err(IssuerAddressNotFound))
    else
      var id := s.index[address];
      var s1 := s.(indexLive := Restored(s.indexLive, address, env.sequence));
      if id !in s.issuers then Result(s1, Err(IssuerNotFound))
      else Result(s1.(issuerLive := Restored(s.issuerLive, id, env.sequence),
                      indexLive := Extended(s1.indexLive, address, env.sequence)),
                  Ok(Issuer(s.issuers[id])))
  }

  function Exec(s: State, env: Env, call: Call): Result<State> {
    match call
    case Initialize(a) => Initialized(s, env, a)
    case RegisterIssuer(id, a, m) => Registered(s, env, id, a, m)
    case UpdateIssuer(id, m) => Updated(s, env, id, m)
    case SetStatus(id, st) => StatusSet(s, env, id, st)
    case RotateIssuerAddress(id, a) => Rotated(s, env, id, a)
    case GetIssuer(id) => Fetched(s, env, id)
    case IsActiveIssuer(id) => IssuerQueried(s, env, id)
    case IsActiveAddress(a) => AddressQueried(s, env, a)
    case GetIssuerByAddress(a) => FetchedByAddress(s, env, a)
    case Govern(c) => var r := Upgrade.Exec(s.core, env, c); Result(s.(core := r.state), r.reply)
  }

  class IssuerRegistryContract {
    var core: Upgrade.Core
    var issuers: map<Hash, IssuerRecord>
    var index: map<Address, Hash>
    var issuerLive: map<Hash, nat>
    var indexLive: map<Address, nat>

    ghost function Current(): State
      reads this
    {
      State(core, issuers, index, issuerLive, indexLive)
    }

    constructor ()
      ensures Current() == EMPTY
    {
      core, issuers, index, issuerLive, indexLive := Upgrade.EMPTY_CORE, map[], map[], map[], map[];
    }

    method Initialize(env: Env, admin: Address) returns (r: Reply)
      modifies this
      ensures Result(Current(), r) == Exec(old(Current()), env, Call.Initialize(admin))
    {
      if core.admin.Some? { return Err(AlreadyInitialized); }
      if !IsValidPrincipal(admin) { return Err(InvalidInput); }
      if admin !in env.auth { return Trap; }
      core := core.(admin := Some(admin));
      core := core.(version := 1);
      return Ok(Unit);
    }

    method Publish(event: Event)
      modifies this`core
      ensures core == old(core).(log := old(core).log + [event])
    {
      core := core.(log := core.log + [event]);
    }

    method RegisterIssuer(env: Env, id: Hash, address: Address, metadata: Hash) returns (r: Reply)
      modifies this
      ensures Result(Current(), r) == Exec(old(Current()), env, Call.RegisterIssuer(id, address, metadata))
    {
      if core.admin.None? { return Err(IssuerNotFound); }
      if !IsValidPrincipal(address) { return Err(InvalidIssuerAddress); }
      if core.admin.value !in env.auth { return Trap; }
      if id in issuers { return Err(IssuerAlreadyRegistered); }
      if address in index { return Err(IssuerAddressAlreadyRegistered); }
      issuers := issuers[id := IssuerRecord(id, address, metadata, IssuerStatus.Active, env.now, env.now)];
      issuerLive := Written(issuerLive, id, env.sequence);
      index := index[address := id];
      indexLive := Written(indexLive, address, env.sequence);
      issuerLive := Extended(issuerLive, id, env.sequence);
      indexLive := Extended(indexLive, address, env.sequence);
      Publish(IssuerRegistered(id, address, metadata, env.now));
      return Ok(Unit);
    }

    method UpdateIssuer(env: Env, id: Hash, metadata: Hash) returns (r: Reply)
      modifies this
      ensures Result(Current(), r) == Exec(old(Current()), env, Call.UpdateIssuer(id, metadata))
    {
      if core.admin.None? { return Err(IssuerNotFound); }
      if core.admin.value !in env.auth { return Trap; }
      if id !in issuers { return Err(IssuerNotFound); }
      var record := issuers[id];
      if record.status.Revoked? { return Err(IssuerIsRevoked); }
      record := record.(metadata := metadata);
      record := record.(updatedAt := env.now);
      issuers := issuers[id := record];
      issuerLive := Written(issuerLive, id, env.sequence);
      issuerLive := Extended(issuerLive, id, env.sequence);
      Publish(IssuerMetadataUpdated(id, metadata, env.now));
      return Ok(Unit);
    }

    method SetStatus(env: Env, id: Hash, status: IssuerStatus) returns (r: Reply)
      modifies this
      ensures Result(Current(), r) == Exec(old(Current()), env, Call.SetStatus(id, status))
    {
      if core.admin.None? { return Err(IssuerNotFound); }
      if core.admin.value !in env.auth { return Trap; }
      if id !in issuers { return Err(IssuerNotFound); }
      var record := issuers[id];
      if record.status.Revoked? && !status.Revoked? { return Err(InvalidTransition); }
      record := record.(status := status);
      record := record.(updatedAt := env.now);
      issuers := issuers[id := record];
      issuerLive := Written(issuerLive, id, env.sequence);
      issuerLive := Extended(issuerLive, id, env.sequence);
      Publish(IssuerStatusSet(id, status, env.now));
      return Ok(Unit);
    }

    method RotateIssuerAddress(env: Env, id: Hash, newAddress: Address) returns (r: Reply)
      modifies this
      ensures Result(Current(), r) == Exec(old(Current()), env, Call.RotateIssuerAddress(id, newAddress))
    {
      if core.admin.None? { return Err(IssuerNotFound); }
      if !IsValidPrincipal(newAddress) { return Err(InvalidIssuerAddress); }
      if core.admin.value !in env.auth { return Trap; }
      if id !in issuers { return Err(IssuerNotFound); }
      var record := issuers[id];
      if record.status.Revoked? { return Err(IssuerIsRevoked); }
      if newAddress == record.address { return Err(InvalidIssuerAddress); }
      if newAddress in index { return Err(IssuerAddressAlreadyRegistered); }
      var oldAddress := record.address;
      index := index - {oldAddress};
      indexLive := indexLive - {oldAddress};
      record := record.(address := newAddress);
      record := record.(updatedAt := env.now);
      issuers := issuers[id := record];
      issuerLive := Written(issuerLive, id, env.sequence);
      index := index[newAddress := id];
      indexLive := Written(indexLive, newAddress, env.sequence);
      issuerLive := Extended(issuerLive, id, env.sequence);
      indexLive := Extended(indexLive, newAddress, env.sequence);
      Publish(IssuerAddressRotated(id, oldAddress, newAddress, env.now));
      return Ok(Unit);
    }

    method GetIssuer(env: Env, id: Hash) returns (r: Reply)
      modifies this`issuerLive
      ensures Result(Current(), r) == Exec(old(Current()), env, Call.GetIssuer(id))
    {
      if id !in issuers { return Err(IssuerNotFound); }
      issuerLive := Extended(issuerLive, id, env.sequence);
      return Ok(Issuer(issuers[id]));
    }

    method IsActiveIssuer(env: Env, id: Hash) returns (active: bool)
      modifies this`issuerLive
      ensures Result(Current(), Ok(Flag(active))) == Exec(old(Current()), env, Call.IsActiveIssuer(id))
    {
      var r := GetIssuer(env, id);
      return r.Ok? && r.value.issuer.status.Active?;
    }

    method IsActiveAddress(env: Env, address: Address) returns (active: bool)
      modifies this`issuerLive, this`indexLive
      ensures Result(Current(), Ok(Flag(active))) == Exec(old(Current()), env, Call.IsActiveAddress(address))
    {
      if address !in index { return false; }
      indexLive := Restored(indexLive, address, env.sequence);
      active := IsActiveIssuer(env, index[address]);
    }

    method GetIssuerByAddress(env: Env, address: Address) returns (r: Reply)
      modifies this`issuerLive, this`indexLive
      ensures Result(Current(), r) == Exec(old(Current()), env, Call.GetIssuerByAddress(address))
    {
      if address !in index { return Err(IssuerAddressNotFound); }
      indexLive := Restored(indexLive, address, env.sequence);
      var id := index[address];
      if id !in issuers { return Err(IssuerNotFound); }
      issuerLive := Restored(issuerLive, id, env.sequence);
      indexLive := Extended(indexLive, address, env.sequence);
      return Ok(Issuer(issuers[id]));
    }
  }
}
