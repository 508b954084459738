/** The ledger: any number of deployed contracts, a clock, and invocations that commit on success and roll back
    otherwise. A run is a sequence of steps; `At(steps, k)` is the world after the first `k` of them. */
module Ledger {
  import opened Shared
  import Upgrade
  import PC = ProtocolConfig
  import IR = IssuerRegistry
  import PR = ProofRegistry

  datatype Instance = Config(config: PC.State) | Issuers(issuers: IR.State) | Proofs(proofs: PR.State)
  datatype Kind = ConfigKind | IssuersKind | ProofsKind
  datatype Call = ToConfig(config: PC.Call) | ToIssuers(issuers: IR.Call) | ToProofs(proofs: PR.Call)

  datatype World = World(now: nat, sequence: nat, contracts: map<Address, Instance>)

  datatype Step =
    | Deploy(address: Address, kind: Kind)
    | Tick(seconds: nat, ledgers: nat)
    | Invoke(target: Address, call: Call, auth: set<Address>)

  const GENESIS := World(0, 0, map[])

  function Blank(kind: Kind): Instance {
    match kind
    case ConfigKind => Config(PC.EMPTY)
    case IssuersKind => Issuers(IR.EMPTY)
    case ProofsKind => Proofs(PR.EMPTY)
  }

  function CoreOf(i: Instance): Upgrade.Core {
    match i
    case Config(s) => s.core
    case Issuers(s) => s.core
    case Proofs(s) => s.core
  }

  function EnvAt(w: World, self: Address, auth: set<Address>): Env {
    Env(self, w.now, w.sequence, auth)
  }

  function ConfigAt(w: World, a: Option<Address>): Option<PC.State> {
    if a.Some? && a.value in w.contracts && w.contracts[a.value].Config? then Some(w.contracts[a.value].config) else None
  }

  function IssuersAt(w: World, a: Option<Address>): Option<IR.State> {
    if a.Some? && a.value in w.contracts && w.contracts[a.value].Issuers? then Some(w.contracts[a.value].issuers) else None
  }

  /** What `register_proof` at the proof registry `s` does, given the dependencies the host finds. */
  function RegistrationAt(w: World, a: Address, s: PR.State, call: PR.Call, auth: set<Address>): PR.Registration
    requires call.RegisterProof?
  {
    PR.Registered(s, ConfigAt(w, s.protocolConfig), IssuersAt(w, s.issuerRegistry), EnvAt(w, a, auth), call)
  }

  /** Storing what a registration left in each of the three contracts it reached. */
  function Spread(w: World, a: Address, s: PR.State, g: PR.Registration): map<Address, Instance> {
    var m := w.contracts;
    var m := if g.config.Some? && s.protocolConfig.Some? then m[s.protocolConfig.value := Config(g.config.value)] else m;
    var m := if g.issuers.Some? && s.issuerRegistry.Some? then m[s.issuerRegistry.value := Issuers(g.issuers.value)] else m;
    m[a := Proofs(g.proofs)]
  }

  /** An invocation as the contract bodies execute it, before the host commits or rolls back. */
  function Attempt(w: World, a: Address, call: Call, auth: set<Address>): Result<map<Address, Instance>> {
    if a !in w.contracts then Result(w.contracts, Trap)
    else
      match (w.contracts[a], call)
      case (Config(s), ToConfig(c)) =>
        var r := PC.Exec(s, EnvAt(w, a, auth), c);
        Result(w.contracts[a := Config(r.state)], r.reply)
      case (Issuers(s), ToIssuers(c)) =>
        var r := IR.Exec(s, EnvAt(w, a, auth), c);
        Result(w.contracts[a := Issuers(r.state)], r.reply)
      case (Proofs(s), ToProofs(c)) =>
        if c.RegisterProof? then
          var g := RegistrationAt(w, a, s, c, auth);
          Result(Spread(w, a, s, g), g.reply)
        else
          var r := PR.Exec(s, EnvAt(w, a, auth), c);
          Result(w.contracts[a := Proofs(r.state)], r.reply)
      case _ => Result(w.contracts, Trap)
  }

  predicate Succeeds(w: World, st: Step) {
    st.Invoke? && Attempt(w, st.target, st.call, st.auth).reply.Ok?
  }

  function Apply(w: World, st: Step): World {
    match st
    case Deploy(a, kind) => if a in w.contracts then w else w.(contracts := w.contracts[a := Blank(kind)])
    case Tick(seconds, ledgers) => World(w.now + seconds, w.sequence + ledgers, w.contracts)
    case Invoke(a, call, auth) => if Succeeds(w, st) then w.(contracts := Attempt(w, a, call, auth).state) else w
  }

  function At(steps: seq<Step>, k: nat): World
    requires k <= |steps|
  {
    if k == 0 then GENESIS else Apply(At(steps, k - 1), steps[k - 1])
  }

  /** A call that a step carries out on one particular contract. */
  datatype LocalCall = LocalCall(env: Env, call: Call)

  /** The call, if any, that step `st` successfully makes on contract `b`: the step's own, or one of the two reads a
      registration makes on its dependencies. */
  function CallOn(w: World, st: Step, b: Address): Option<LocalCall> {
    if !Succeeds(w, st) then None
    else if st.target == b then Some(LocalCall(EnvAt(w, b, st.auth), st.call))
    else if st.call.ToProofs? && st.call.proofs.RegisterProof? && st.target in w.contracts && w.contracts[st.target].Proofs? then
      var s := w.contracts[st.target].proofs;
      if s.protocolConfig == Some(b) then
        Some(LocalCall(EnvAt(w, b, st.auth), ToConfig(PC.IsSchemaVersionApproved(st.call.proofs.schema))))
      else if s.issuerRegistry == Some(b) then
        Some(LocalCall(EnvAt(w, b, st.auth), ToIssuers(IR.IsActiveAddress(st.call.proofs.issuer))))
      else None
    else None
  }

  /** A contract's successor under a call made on it in world `w`. */
  function Moved(w: World, i: Instance, l: LocalCall): Instance {
    match (i, l.call)
    case (Config(s), ToConfig(c)) => Config(PC.Exec(s, l.env, c).state)
    case (Issuers(s), ToIssuers(c)) => Issuers(IR.Exec(s, l.env, c).state)
    case (Proofs(s), ToProofs(c)) =>
      Proofs(if c.RegisterProof? then RegistrationAt(w, l.env.self, s, c, l.env.auth).proofs else PR.Exec(s, l.env, c).state)
    case _ => i
  }

  /** Whether a call made on a contract in world `w` replies `Ok`. */
  predicate Fine(w: World, i: Instance, l: LocalCall) {
    match (i, l.call)
    case (Config(s), ToConfig(c)) => PC.Exec(s, l.env, c).reply.Ok?
    case (Issuers(s), ToIssuers(c)) => IR.Exec(s, l.env, c).reply.Ok?
    case (Proofs(s), ToProofs(c)) =>
      if c.RegisterProof? then RegistrationAt(w, l.env.self, s, c, l.env.auth).reply.Ok? else PR.Exec(s, l.env, c).reply.Ok?
    case _ => false
  }

  /** Each contract evolves only by its own code: whatever a step does to the rest of the ledger, contract `b` either
      stays as it was or makes the one move that `CallOn` names. */
  lemma EachContractMovesAlone(w: World, st: Step, b: Address)
    ensures b in w.contracts ==>
      && b in Apply(w, st).contracts
      && match CallOn(w, st, b)
         case None => Apply(w, st).contracts[b] == w.contracts[b]
         case Some(l) =>
           && l.env.self == b && l.env.now == w.now && l.env.sequence == w.sequence
           && Fine(w, w.contracts[b], l)
           && Apply(w, st).contracts[b] == Moved(w, w.contracts[b], l)
    ensures b !in w.contracts && b in Apply(w, st).contracts ==>
      st.Deploy? && st.address == b && Apply(w, st).contracts[b] == Blank(st.kind)
  {
    if Succeeds(w, st) && st.call.ToProofs? && st.call.proofs.RegisterProof? {
      var s := w.contracts[st.target].proofs;
      var g := RegistrationAt(w, st.target, s, st.call.proofs, st.auth);
      assert g.reply.Ok?;
      assert g.config.Some? && g.issuers.Some?;
    }
  }

  predicate IsRegistration(st: Step) {
    st.Invoke? && st.call.ToProofs? && st.call.proofs.RegisterProof?
  }

  /** The issuer registry's answer to `is_active_address`. */
  predicate IndexedActive(s: IR.State, a: Address) {
    a in s.index && s.index[a] in s.issuers && s.issuers[s.index[a]].status.Active?
  }

  /** The conditions `register_proof` tests, gathered from the three contracts it reads. */
  predicate Gate(w: World, p: Address, c: PR.Call, auth: set<Address>)
    requires c.RegisterProof?
  {
    && p in w.contracts && w.contracts[p].Proofs?
    && var s := w.contracts[p].proofs;
    && IsValidPrincipal(c.issuer) && c.issuer in auth && c.schema != 0 && w.now < c.expiresAt
    && c.issuer != p && s.protocolConfig != Some(c.issuer) && s.issuerRegistry != Some(c.issuer)
    && c.id !in s.proofs
    && var config := ConfigAt(w, s.protocolConfig);
    && config.Some? && !config.value.paused && PC.SchemaApprovedIn(config.value, c.schema)
    && var issuers := IssuersAt(w, s.issuerRegistry);
    && issuers.Some? && IndexedActive(issuers.value, c.issuer)
  }

  /** `register_proof` succeeds exactly when the gate is open, and then adds one record and nothing else. */
  lemma RegistrationIsGated(w: World, st: Step)
    requires IsRegistration(st)
    ensures Succeeds(w, st) <==> Gate(w, st.target, st.call.proofs, st.auth)
    ensures Succeeds(w, st) ==>
      var s := w.contracts[st.target].proofs;
      var env := EnvAt(w, st.target, st.auth);
      Apply(w, st).contracts[st.target] == Proofs(PR.Stored(s, env, st.call.proofs.id, PR.NewRecord(env, st.call.proofs)))
  {
  }

  lemma {:induction false} ClockNeverRunsBack(steps: seq<Step>, i: nat, k: nat)
    requires i <= k <= |steps|
    ensures At(steps, i).now <= At(steps, k).now && At(steps, i).sequence <= At(steps, k).sequence
    ensures forall b | b in At(steps, i).contracts :: b in At(steps, k).contracts
    decreases k
  {
    if i < k {
      ClockNeverRunsBack(steps, i, k - 1);
      forall b | b in At(steps, k - 1).contracts ensures b in At(steps, k).contracts {
        EachContractMovesAlone(At(steps, k - 1), steps[k - 1], b);
      }
    }
  }
}
