/** The event log of a contract is a complete journal: folding it rebuilds the stored state. */
module Replay {
  import opened Shared
  import opened Ledger
  import Upgrade
  import PC = ProtocolConfig
  import IR = IssuerRegistry

  // ----- protocol-config -----

  /** Everything protocol-config stores, lifetimes aside. */
  datatype ConfigView = ConfigView(
    admin: Option<Address>, paused: bool, schemas: map<u32, bool>, configVersion: nat, version: nat, allowed: map<Hash, u32>)

  function ViewOf(s: PC.State): ConfigView {
    ConfigView(s.core.admin, s.paused, s.schemas, s.configVersion, s.core.version, s.core.allowed)
  }

  /** What an indexer that knows only the events does with one of them. */
  function ConfigEvent(v: ConfigView, e: Event): ConfigView {
    match e
    case Initialized(a) => v.(admin := Some(a), paused := false, configVersion := 1, version := 1)
    case AdminChanged(a) => v.(admin := Some(a), configVersion := v.configVersion + 1)
    case Paused => v.(paused := true, configVersion := v.configVersion + 1)
    case Unpaused => v.(paused := false, configVersion := v.configVersion + 1)
    case SchemaApproved(n) => v.(schemas := v.schemas[n := true], configVersion := v.configVersion + 1)
    case SchemaDeprecated(n) => v.(schemas := v.schemas[n := false], configVersion := v.configVersion + 1)
    case UpgradeAllowlisted(h, n, _) => v.(allowed := v.allowed[h := n])
    case UpgradeRevoked(h, _) => v.(allowed := v.allowed - {h})
    case ContractUpgraded(h, _, n, _) => v.(allowed := v.allowed - {h}, version := n)
    case _ => v
  }

  function ReplayConfig(log: seq<Event>): ConfigView {
    if |log| == 0 then ConfigView(None, false, map[], 0, 0, map[])
    else ConfigEvent(ReplayConfig(log[..|log| - 1]), log[|log| - 1])
  }

  lemma {:induction false} ReplayConfigOneMore(log: seq<Event>, e: Event)
    ensures ReplayConfig(log + [e]) == ConfigEvent(ReplayConfig(log), e)
  {
    assert (log + [e])[..|log|] == log;
  }

  /** A successful call other than the schema query publishes exactly one event, and the view moves by that event. */
  lemma ConfigCallPublishes(s: PC.State, env: Env, c: PC.Call) returns (e: Event)
    requires PC.Exec(s, env, c).reply.Ok? && !c.IsSchemaVersionApproved?
    ensures PC.Exec(s, env, c).state.core.log == s.core.log + [e]
    ensures ViewOf(PC.Exec(s, env, c).state) == ConfigEvent(ViewOf(s), e)
  {
    match c
    case Initialize(a) => e := Initialized(a);
    case SetAdmin(a) => e := AdminChanged(a);
    case Pause => e := Paused;
    case Unpause => e := Unpaused;
    case ApproveSchemaVersion(v) => e := SchemaApproved(v);
    case DeprecateSchemaVersion(v) => e := SchemaDeprecated(v);
    case Govern(g) => e := GovernancePublishes(s.core, env, g);
  }

  lemma GovernancePublishes(c: Upgrade.Core, env: Env, g: Upgrade.Call) returns (e: Event)
    requires Upgrade.Exec(c, env, g).reply.Ok?
    ensures Upgrade.Exec(c, env, g).state.log == c.log + [e]
    ensures e == match g
                 case ApproveUpgrade(h, v) => UpgradeAllowlisted(h, v, c.admin.value)
                 case RevokeUpgrade(h) => UpgradeRevoked(h, c.admin.value)
                 case UpgradeContract(h) => ContractUpgraded(h, c.version, c.allowed[h], c.admin.value)
  {
    var c' := Upgrade.Exec(c, env, g).state;
    e := c'.log[|c.log|];
  }

  lemma EveryConfigCallIsJournaled(s: PC.State, env: Env, c: PC.Call)
    requires ReplayConfig(s.core.log) == ViewOf(s) && PC.Exec(s, env, c).reply.Ok?
    ensures ReplayConfig(PC.Exec(s, env, c).state.core.log) == ViewOf(PC.Exec(s, env, c).state)
  {
    if !c.IsSchemaVersionApproved? {
      var e := ConfigCallPublishes(s, env, c);
      ReplayConfigOneMore(s.core.log, e);
    }
  }

  lemma {:induction false} ConfigLogRebuildsState(steps: seq<Step>, k: nat, b: Address)
    requires k <= |steps| && b in At(steps, k).contracts && At(steps, k).contracts[b].Config?
    ensures ReplayConfig(At(steps, k).contracts[b].config.core.log) == ViewOf(At(steps, k).contracts[b].config)
    decreases k
  {
    if k > 0 {
      var w, st := At(steps, k - 1), steps[k - 1];
      EachContractMovesAlone(w, st, b);
      if b in w.contracts {
        ConfigLogRebuildsState(steps, k - 1, b);
        var l := CallOn(w, st, b);
        if l.Some? {
          EveryConfigCallIsJournaled(w.contracts[b].config, l.value.env, l.value.call.config);
        }
      }
    }
  }

  // ----- issuer-registry -----

  /** The records, with their timestamps, the whole address index, and the upgrade allowlist. */
  datatype IssuerView = IssuerView(issuers: map<Hash, IssuerRecord>, index: map<Address, Hash>, allowed: map<Hash, u32>)

  function IssuerViewOf(s: IR.State): IssuerView {
    IssuerView(s.issuers, s.index, s.core.allowed)
  }

  function IssuerEvent(v: IssuerView, e: Event): IssuerView {
    match e
    case IssuerRegistered(id, a, m, t) =>
      v.(issuers := v.issuers[id := IssuerRecord(id, a, m, IssuerStatus.Active, t, t)], index := v.index[a := id])
    case IssuerMetadataUpdated(id, m, t) =>
      if id in v.issuers then v.(issuers := v.issuers[id := v.issuers[id].(metadata := m, updatedAt := t)]) else v
    case IssuerStatusSet(id, st, t) =>
      if id in v.issuers then v.(issuers := v.issuers[id := v.issuers[id].(status := st, updatedAt := t)]) else v
    case IssuerAddressRotated(id, a, a', t) =>
      if id in v.issuers then
        v.(issuers := v.issuers[id := v.issuers[id].(address := a', updatedAt := t)], index := (v.index - {a})[a' := id])
      else v
    case UpgradeAllowlisted(h, n, _) => v.(allowed := v.allowed[h := n])
    case UpgradeRevoked(h, _) => v.(allowed := v.allowed - {h})
    case ContractUpgraded(h, _, _, _) => v.(allowed := v.allowed - {h})
    case _ => v
  }

  function ReplayIssuers(log: seq<Event>): IssuerView {
    if |log| == 0 then IssuerView(map[], map[], map[])
    else IssuerEvent(ReplayIssuers(log[..|log| - 1]), log[|log| - 1])
  }

  lemma {:induction false} ReplayIssuersOneMore(log: seq<Event>, e: Event)
    ensures ReplayIssuers(log + [e]) == IssuerEvent(ReplayIssuers(log), e)
  {
    assert (log + [e])[..|log|] == log;
  }

  /** The calls after which the registry's values are as before: `initialize` and the reads. */
  predicate IsSilent(c: IR.Call) {
    c.Initialize? || c.GetIssuer? || c.IsActiveIssuer? || c.IsActiveAddress? || c.GetIssuerByAddress?
  }

  lemma RotationPublishes(s: IR.State, env: Env, id: Hash, a: Address)
    requires IR.Rotated(s, env, id, a).reply.Ok?
    ensures
      var e := IssuerAddressRotated(id, s.issuers[id].address, a, env.now);
      var s' := IR.Rotated(s, env, id, a).state;
      s'.core.log == s.core.log + [e] && IssuerViewOf(s') == IssuerEvent(IssuerViewOf(s), e)
  {
  }

  lemma IssuerCallPublishes(s: IR.State, env: Env, c: IR.Call) returns (e: Event)
    requires IR.Exec(s, env, c).reply.Ok? && !IsSilent(c)
    ensures IR.Exec(s, env, c).state.core.log == s.core.log + [e]
    ensures IssuerViewOf(IR.Exec(s, env, c).state) == IssuerEvent(IssuerViewOf(s), e)
  {
    match c
    case RegisterIssuer(id, a, m) => e := IssuerRegistered(id, a, m, env.now);
    case UpdateIssuer(id, m) => e := IssuerMetadataUpdated(id, m, env.now);
    case SetStatus(id, st) => e := IssuerStatusSet(id, st, env.now);
    case RotateIssuerAddress(id, a) =>
      e := IssuerAddressRotated(id, s.issuers[id].address, a, env.now);
      RotationPublishes(s, env, id, a);
    case Govern(g) => e := GovernancePublishes(s.core, env, g);
  }

  lemma EveryIssuerCallIsJournaled(s: IR.State, env: Env, c: IR.Call)
    requires ReplayIssuers(s.core.log) == IssuerViewOf(s) && IR.Exec(s, env, c).reply.Ok?
    ensures ReplayIssuers(IR.Exec(s, env, c).state.core.log) == IssuerViewOf(IR.Exec(s, env, c).state)
  {
    if !IsSilent(c) {
      var e := IssuerCallPublishes(s, env, c);
      ReplayIssuersOneMore(s.core.log, e);
    }
  }

  lemma {:induction false} IssuerLogRebuildsState(steps: seq<Step>, k: nat, b: Address)
    requires k <= |steps| && b in At(steps, k).contracts && At(steps, k).contracts[b].Issuers?
    ensures ReplayIssuers(At(steps, k).contracts[b].issuers.core.log) == IssuerViewOf(At(steps, k).contracts[b].issuers)
    decreases k
  {
    if k > 0 {
      var w, st := At(steps, k - 1), steps[k - 1];
      EachContractMovesAlone(w, st, b);
      if b in w.contracts {
        IssuerLogRebuildsState(steps, k - 1, b);
        var l := CallOn(w, st, b);
        if l.Some? {
          EveryIssuerCallIsJournaled(w.contracts[b].issuers, l.value.env, l.value.call.issuers);
        }
      }
    }
  }
}
