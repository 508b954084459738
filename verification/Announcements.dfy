/** Which events are published: one for each successful call that changes something, with its fields taken from the call,
    the clock and the state before it, and none otherwise. */
module Announcements {
  import opened Shared
  import opened Ledger
  import opened Settings
  import opened IssuerHistory
  import Upgrade
  import UpgradeLaws
  import PC = ProtocolConfig
  import IR = IssuerRegistry
  import PR = ProofRegistry

  function LogOf(w: World, b: Address): seq<Event> {
    if b in w.contracts then CoreOf(w.contracts[b]).log else []
  }

  function ConfigNews(c: PC.Call): seq<Event> {
    match c
    case Initialize(a) => [Initialized(a)]
    case SetAdmin(a) => [AdminChanged(a)]
    case Pause => [Paused]
    case Unpause => [Unpaused]
    case ApproveSchemaVersion(v) => [SchemaApproved(v)]
    case DeprecateSchemaVersion(v) => [SchemaDeprecated(v)]
    case _ => []
  }

  /** `r` is the record of the issuer named by the call, before it. */
  function IssuerNews(c: IR.Call, r: Option<IssuerRecord>, now: nat): seq<Event> {
    match c
    case RegisterIssuer(id, a, m) => [IssuerRegistered(id, a, m, now)]
    case UpdateIssuer(id, m) => [IssuerMetadataUpdated(id, m, now)]
    case SetStatus(id, st) => [IssuerStatusSet(id, st, now)]
    case RotateIssuerAddress(id, a) => if r.Some? then [IssuerAddressRotated(id, r.value.address, a, now)] else []
    case _ => []
  }

  function GovernanceNews(c: Upgrade.Core, g: Upgrade.Call): seq<Event> {
    if c.admin.None? then []
    else
      match g
      case ApproveUpgrade(h, v) => [UpgradeAllowlisted(h, v, c.admin.value)]
      case RevokeUpgrade(h) => [UpgradeRevoked(h, c.admin.value)]
      case UpgradeContract(h) => if h in c.allowed then [ContractUpgraded(h, c.version, c.allowed[h], c.admin.value)] else []
  }

  /** The issuer a call is about. */
  function Subject(c: IR.Call): Hash {
    if c.RotateIssuerAddress? then c.id else Hash(0)
  }

  function News(i: Instance, call: Call, now: nat): seq<Event> {
    match UpgradeLaws.GovernanceIn(call)
    case Some(g) => GovernanceNews(CoreOf(i), g)
    case None =>
      match (i, call)
      case (Config(_), ToConfig(c)) => ConfigNews(c)
      case (Issuers(s), ToIssuers(c)) => IssuerNews(c, RecordIn(s, Subject(c)), now)
      case _ => []
  }

  lemma GovernanceAnnounces(c: Upgrade.Core, env: Env, g: Upgrade.Call)
    requires Upgrade.Exec(c, env, g).reply.Ok?
    ensures Upgrade.Exec(c, env, g).state.log == c.log + GovernanceNews(c, g)
  {
  }

  lemma ConfigAnnounces(s: PC.State, env: Env, c: PC.Call)
    requires PC.Exec(s, env, c).reply.Ok?
    ensures PC.Exec(s, env, c).state.core.log == s.core.log + News(Config(s), ToConfig(c), env.now)
  {
    if c.Govern? {
      GovernanceAnnounces(s.core, env, c.call);
    }
  }

  lemma IssuersAnnounce(s: IR.State, env: Env, c: IR.Call)
    requires IR.Exec(s, env, c).reply.Ok?
    ensures IR.Exec(s, env, c).state.core.log == s.core.log + News(Issuers(s), ToIssuers(c), env.now)
  {
    if c.Govern? {
      GovernanceAnnounces(s.core, env, c.call);
    }
  }

  lemma RegistryAnnounces(s: PR.State, env: Env, c: PR.Call)
    requires !c.RegisterProof? && PR.Exec(s, env, c).reply.Ok?
    ensures PR.Exec(s, env, c).state.core.log == s.core.log + News(Proofs(s), ToProofs(c), env.now)
  {
    if c.Govern? {
      GovernanceAnnounces(s.core, env, c.call);
    }
  }

  lemma CallAnnounces(w: World, st: Step, b: Address, l: LocalCall)
    requires b in w.contracts && CallOn(w, st, b) == Some(l)
    ensures LogOf(Apply(w, st), b) == LogOf(w, b) + News(w.contracts[b], l.call, w.now)
  {
    EachContractMovesAlone(w, st, b);
    match w.contracts[b]
    case Config(s) => ConfigAnnounces(s, l.env, l.call.config);
    case Issuers(s) => IssuersAnnounce(s, l.env, l.call.issuers);
    case Proofs(s) =>
      if IsRegistration(st) {
        RegistrationIsGated(w, st);
      } else {
        RegistryAnnounces(s, l.env, l.call.proofs);
      }
  }

  /** What step `st` adds to the log of contract `b`. */
  function Added(w: World, st: Step, b: Address): seq<Event> {
    if CallsFine(w, st, b) && b in w.contracts then News(w.contracts[b], st.call, w.now) else []
  }

  lemma EveryStepAnnounces(w: World, st: Step, b: Address)
    ensures LogOf(Apply(w, st), b) == LogOf(w, b) + Added(w, st, b)
  {
    EachContractMovesAlone(w, st, b);
    if b in w.contracts && CallOn(w, st, b).Some? {
      CallAnnounces(w, st, b, CallOn(w, st, b).value);
    }
  }

  function Announced(steps: seq<Step>, k: nat, b: Address): seq<Event>
    requires k <= |steps|
  {
    if k == 0 then [] else Announced(steps, k - 1, b) + Added(At(steps, k - 1), steps[k - 1], b)
  }

  /** The log of every contract is the sequence of announcements of the successful calls made to it, in order. */
  lemma {:induction false} LogIsWhatHappened(steps: seq<Step>, k: nat, b: Address)
    requires k <= |steps|
    ensures LogOf(At(steps, k), b) == Announced(steps, k, b)
  {
    if k > 0 {
      LogIsWhatHappened(steps, k - 1, b);
      EveryStepAnnounces(At(steps, k - 1), steps[k - 1], b);
    }
  }
}
