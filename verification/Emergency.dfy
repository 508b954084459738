/** tests/emergency/src/sequences.rs: the five-flag model of the documented emergency rules, and the three-contract
    deployment that must follow it for operation sequences of every length. */
module Emergency {
  import opened Shared
  import opened Ledger
  import PC = ProtocolConfig
  import IR = IssuerRegistry
  import PR = ProofRegistry

  datatype Op = Pause | Unpause | RotateAdmin | SuspendIssuer | ReactivateIssuer | RevokeIssuer | RevokeProof | RegisterProof

  // ----- the documented rules -----

  datatype Flags = Flags(paused: bool, issuerSuspended: bool, issuerRevoked: bool, proofRevoked: bool, proofRegistered: bool)

  const START := Flags(false, false, false, false, true)

  predicate Allowed(m: Flags, op: Op) {
    match op
    case SuspendIssuer => !m.issuerRevoked
    case ReactivateIssuer => !m.issuerRevoked
    case RevokeProof => m.proofRegistered && !m.proofRevoked
    case RegisterProof => !m.paused && !m.issuerSuspended && !m.issuerRevoked
    case _ => true
  }

  function Next(m: Flags, op: Op): Flags {
    if !Allowed(m, op) then m
    else
      match op
      case Pause => m.(paused := true)
      case Unpause => m.(paused := false)
      case SuspendIssuer => m.(issuerSuspended := true)
      case ReactivateIssuer => m.(issuerSuspended := false)
      case RevokeIssuer => m.(issuerRevoked := true, issuerSuspended := false)
      case RevokeProof => m.(proofRevoked := true)
      case _ => m
  }

  class Model {
    var paused: bool
    var issuerSuspended: bool
    var issuerRevoked: bool
    var proofRevoked: bool
    var proofRegistered: bool

    function View(): Flags
      reads this
    {
      Flags(paused, issuerSuspended, issuerRevoked, proofRevoked, proofRegistered)
    }

    constructor ()
      ensures View() == START
    {
      paused, issuerSuspended, issuerRevoked, proofRevoked, proofRegistered := false, false, false, false, true;
    }

    constructor CopyOf(m: Model)
      ensures View() == m.View()
    {
      paused, issuerSuspended, issuerRevoked := m.paused, m.issuerSuspended, m.issuerRevoked;
      proofRevoked, proofRegistered := m.proofRevoked, m.proofRegistered;
    }

    /** A rejected operation leaves the model untouched. */
    method Apply(op: Op) returns (accepted: bool)
      modifies this
      ensures accepted == Allowed(old(View()), op)
      ensures View() == Next(old(View()), op)
    {
      match op
      case Pause =>
        paused := true;
        return true;
      case Unpause =>
        paused := false;
        return true;
      case RotateAdmin =>
        return true;
      case SuspendIssuer =>
        if issuerRevoked { return false; }
        issuerSuspended := true;
        return true;
      case ReactivateIssuer =>
        if issuerRevoked { return false; }
        issuerSuspended := false;
        return true;
      case RevokeIssuer =>
        issuerRevoked := true;
        issuerSuspended := false;
        return true;
      case RevokeProof =>
        if !proofRegistered || proofRevoked { return false; }
        proofRevoked := true;
        return true;
      case RegisterProof =>
        return !paused && !issuerSuspended && !issuerRevoked;
    }
  }

  // ----- the deployment -----

  datatype Deployment = Deployment(
    config: Address, issuers: Address, proofs: Address, issuerId: Hash, issuer: Address, fixture: Hash, schema: u32)

  /** One operation with the data the harness generates for it: the next administrator, or the new proof. */
  datatype Action = Action(op: Op, next: Address, id: Hash, commitment: Hash)

  /** The three contracts are initialized and wired, the issuer is registered, the schema is approved and the fixture
      proof exists. */
  predicate Deployed(w: World, d: Deployment) {
    && d.config in w.contracts && w.contracts[d.config].Config?
    && d.issuers in w.contracts && w.contracts[d.issuers].Issuers?
    && d.proofs in w.contracts && w.contracts[d.proofs].Proofs?
    && var c, i, p := w.contracts[d.config].config, w.contracts[d.issuers].issuers, w.contracts[d.proofs].proofs;
    && c.core.admin.Some? && PC.SchemaApprovedIn(c, d.schema)
    && i.core.admin.Some? && d.issuerId in i.issuers && d.issuer in i.index && i.index[d.issuer] == d.issuerId
    && p.core.admin.Some? && p.issuerRegistry == Some(d.issuers) && p.protocolConfig == Some(d.config)
    && d.fixture in p.proofs
    && IsValidPrincipal(d.issuer) && d.issuer != d.proofs && d.issuer != d.config && d.issuer != d.issuers
  }

  /** All authorisation is mocked: the administrators and the issuer consent to everything. */
  function Everyone(w: World, d: Deployment): set<Address>
    requires Deployed(w, d)
  {
    {d.issuer, CoreOf(w.contracts[d.config]).admin.value, CoreOf(w.contracts[d.issuers]).admin.value,
     CoreOf(w.contracts[d.proofs]).admin.value}
  }

  function StepFor(w: World, d: Deployment, act: Action): Step
    requires Deployed(w, d)
  {
    var auth := Everyone(w, d);
    match act.op
    case Pause => Invoke(d.config, ToConfig(PC.Pause), auth)
    case Unpause => Invoke(d.config, ToConfig(PC.Unpause), auth)
    case RotateAdmin => Invoke(d.config, ToConfig(PC.SetAdmin(act.next)), auth)
    case SuspendIssuer => Invoke(d.issuers, ToIssuers(IR.SetStatus(d.issuerId, IssuerStatus.Suspended)), auth)
    case ReactivateIssuer => Invoke(d.issuers, ToIssuers(IR.SetStatus(d.issuerId, IssuerStatus.Active)), auth)
    case RevokeIssuer => Invoke(d.issuers, ToIssuers(IR.SetStatus(d.issuerId, IssuerStatus.Revoked)), auth)
    case RevokeProof => Invoke(d.proofs, ToProofs(PR.AdminRevokeProof(d.fixture)), auth)
    case RegisterProof =>
      Invoke(d.proofs, ToProofs(PR.RegisterProof(act.id, act.commitment, d.issuer, d.schema, w.now + 100_000)), auth)
  }

  /** `observe`: the flags as the contracts show them. */
  function Observe(w: World, d: Deployment): Flags
    requires Deployed(w, d)
  {
    var status := w.contracts[d.issuers].issuers.issuers[d.issuerId].status;
    Flags(w.contracts[d.config].config.paused, status.Suspended?, status.Revoked?,
          PR.RevokedIn(w.contracts[d.proofs].proofs, d.fixture), true)
  }

  function Room(w: World, d: Deployment): nat
    requires Deployed(w, d)
  {
    U32_MAX - w.contracts[d.config].config.configVersion
  }

  function UsedIds(w: World, d: Deployment): set<Hash>
    requires Deployed(w, d)
  {
    w.contracts[d.proofs].proofs.proofs.Keys
  }

  // ----- one step of the simulation -----

  predicate IsConfigOp(op: Op) {
    op.Pause? || op.Unpause? || op.RotateAdmin?
  }

  /** What the contracts need beyond the documented rules: room in the mutation counter, a usable administrator
      address, and an unused proof id. */
  predicate Feasible(m: Flags, used: set<Hash>, room: nat, act: Action) {
    && (IsConfigOp(act.op) ==> room > 0)
    && (act.op.RotateAdmin? ==> IsValidPrincipal(act.next))
    && (act.op.RegisterProof? && Allowed(m, act.op) ==> act.id !in used)
  }

  lemma ConfigOpFollowsModel(w: World, d: Deployment, act: Action)
    requires Deployed(w, d) && IsConfigOp(act.op)
    ensures
      var w' := Apply(w, StepFor(w, d, act));
      && Deployed(w', d)
      && (Succeeds(w, StepFor(w, d, act)) <==> Feasible(Observe(w, d), UsedIds(w, d), Room(w, d), act))
      && (Succeeds(w, StepFor(w, d, act)) ==>
            Observe(w', d) == Next(Observe(w, d), act.op) && UsedIds(w', d) == UsedIds(w, d) && Room(w', d) == Room(w, d) - 1)
  {
  }

  lemma IssuerOpFollowsModel(w: World, d: Deployment, act: Action)
    requires Deployed(w, d) && (act.op.SuspendIssuer? || act.op.ReactivateIssuer? || act.op.RevokeIssuer?)
    ensures
      var w' := Apply(w, StepFor(w, d, act));
      && Deployed(w', d)
      && (Succeeds(w, StepFor(w, d, act)) <==> Allowed(Observe(w, d), act.op))
      && Observe(w', d) == Next(Observe(w, d), act.op) && UsedIds(w', d) == UsedIds(w, d) && Room(w', d) == Room(w, d)
  {
  }

  lemma ProofRevocationFollowsModel(w: World, d: Deployment, act: Action)
    requires Deployed(w, d) && act.op.RevokeProof?
    ensures
      var w' := Apply(w, StepFor(w, d, act));
      && Deployed(w', d)
      && (Succeeds(w, StepFor(w, d, act)) <==> Allowed(Observe(w, d), act.op))
      && Observe(w', d) == Next(Observe(w, d), act.op) && UsedIds(w', d) == UsedIds(w, d) && Room(w', d) == Room(w, d)
  {
  }

  lemma RegistrationFollowsModel(w: World, d: Deployment, act: Action)
    requires Deployed(w, d) && act.op.RegisterProof?
    ensures
      var w' := Apply(w, StepFor(w, d, act));
      var ok := Allowed(Observe(w, d), act.op) && act.id !in UsedIds(w, d);
      && Deployed(w', d)
      && (Succeeds(w, StepFor(w, d, act)) <==> ok)
      && Observe(w', d) == Observe(w, d) && Room(w', d) == Room(w, d)
      && UsedIds(w', d) == if ok then UsedIds(w, d) + {act.id} else UsedIds(w, d)
  {
    var st := StepFor(w, d, act);
    RegistrationIsGated(w, st);
    EachContractMovesAlone(w, st, d.config);
    EachContractMovesAlone(w, st, d.issuers);
  }

  function IdsAfter(m: Flags, used: set<Hash>, act: Action): set<Hash> {
    if act.op.RegisterProof? && Allowed(m, act.op) then used + {act.id} else used
  }

  function RoomAfter(room: nat, act: Action): int {
    if IsConfigOp(act.op) then room - 1 else room
  }

  /** The contracts agree with the rules on one action exactly when it is feasible. */
  lemma OneStepFollowsModel(w: World, d: Deployment, act: Action)
    requires Deployed(w, d)
    ensures
      var m, w' := Observe(w, d), Apply(w, StepFor(w, d, act));
      var feasible := Feasible(m, UsedIds(w, d), Room(w, d), act);
      && Deployed(w', d)
      && (feasible <==> Succeeds(w, StepFor(w, d, act)) == Allowed(m, act.op))
      && (feasible ==> && Observe(w', d) == Next(m, act.op)
                       && UsedIds(w', d) == IdsAfter(m, UsedIds(w, d), act)
                       && Room(w', d) == RoomAfter(Room(w, d), act))
  {
    match act.op {
      case Pause => ConfigOpFollowsModel(w, d, act);
      case Unpause => ConfigOpFollowsModel(w, d, act);
      case RotateAdmin => ConfigOpFollowsModel(w, d, act);
      case RevokeProof => ProofRevocationFollowsModel(w, d, act);
      case RegisterProof => RegistrationFollowsModel(w, d, act);
      case _ => IssuerOpFollowsModel(w, d, act);
    }
  }

  // ----- sequences of every length -----

  /** The assertions of `replay`: at every step the contracts accept what the rules allow, and show the flags the
      rules prescribe. */
  predicate Agrees(w: World, d: Deployment, m: Flags, acts: seq<Action>)
    requires Deployed(w, d)
    decreases |acts|
  {
    acts == [] ||
    (var st := StepFor(w, d, acts[0]);
     && Succeeds(w, st) == Allowed(m, acts[0].op)
     && Deployed(Apply(w, st), d)
     && Observe(Apply(w, st), d) == Next(m, acts[0].op)
     && Agrees(Apply(w, st), d, Next(m, acts[0].op), acts[1..]))
  }

  /** The exact precondition, computed on the abstract model alone. */
  predicate Tractable(m: Flags, used: set<Hash>, room: nat, acts: seq<Action>)
    decreases |acts|
  {
    acts == [] ||
    (&& Feasible(m, used, room, acts[0])
     && Tractable(Next(m, acts[0].op), IdsAfter(m, used, acts[0]), RoomAfter(room, acts[0]), acts[1..]))
  }

  /** The deployment follows the emergency model through the whole sequence if and only if every config operation
      finds room in the u32 counter, every successor is a valid principal and every permitted registration uses a
      fresh id. */
  lemma {:induction false} ContractsFollowModelExactlyWhenTractable(w: World, d: Deployment, m: Flags, acts: seq<Action>)
    requires Deployed(w, d) && Observe(w, d) == m
    ensures Agrees(w, d, m, acts) <==> Tractable(m, UsedIds(w, d), Room(w, d), acts)
    decreases |acts|
  {
    if acts != [] {
      var act := acts[0];
      var w' := Apply(w, StepFor(w, d, act));
      OneStepFollowsModel(w, d, act);
      if Succeeds(w, StepFor(w, d, act)) == Allowed(m, act.op) {
        ContractsFollowModelExactlyWhenTractable(w', d, Next(m, act.op), acts[1..]);
      }
    }
  }

  /** `replay`: runs the sequence and stops at the first assertion that fails. */
  method Replay(w0: World, d: Deployment, acts: seq<Action>) returns (agreed: bool)
    requires Deployed(w0, d) && Observe(w0, d) == START
    ensures agreed <==> Tractable(START, UsedIds(w0, d), Room(w0, d), acts)
  {
    var model := new Model();
    var w := w0;
    var step := 0;
    while step < |acts|
      invariant 0 <= step <= |acts|
      invariant Deployed(w, d) && Observe(w, d) == model.View()
      invariant Tractable(START, UsedIds(w0, d), Room(w0, d), acts)
                <==> Tractable(model.View(), UsedIds(w, d), Room(w, d), acts[step..])
    {
      var act := acts[step];
      assert acts[step..][0] == act && acts[step..][1..] == acts[step + 1..];
      var expected := new Model.CopyOf(model);
      var modelAccepted := expected.Apply(act.op);
      var st := StepFor(w, d, act);
      OneStepFollowsModel(w, d, act);
      var contractAccepted := Succeeds(w, st);
      if contractAccepted != modelAccepted {
        return false;
      }
      if modelAccepted {
        model := expected;
      }
      w := Ledger.Apply(w, st);
      assert Observe(w, d) == model.View();  // the second assertion of `replay` never fails on its own
      step := step + 1;
    }
    return true;
  }

  // ----- the ids the harness generates -----

  function ConfigOps(acts: seq<Action>): nat {
    if acts == [] then 0 else (if IsConfigOp(acts[0].op) then 1 else 0) + ConfigOps(acts[1..])
  }

  ghost predicate FreshIds(used: set<Hash>, acts: seq<Action>) {
    forall i | 0 <= i < |acts| && acts[i].op.RegisterProof? ::
      && acts[i].id !in used
      && forall j | 0 <= j < i && acts[j].op.RegisterProof? :: acts[j].id != acts[i].id
  }

  ghost predicate ValidSuccessors(acts: seq<Action>) {
    forall i | 0 <= i < |acts| && acts[i].op.RotateAdmin? :: IsValidPrincipal(acts[i].next)
  }

  /** A sequence of any length whose ids are fresh, whose successors are valid and whose config operations fit in the
      counter is one the contracts follow. */
  lemma {:induction false} FreshSequencesAreTractable(m: Flags, used: set<Hash>, room: nat, acts: seq<Action>)
    requires FreshIds(used, acts) && ValidSuccessors(acts) && ConfigOps(acts) <= room
    ensures Tractable(m, used, room, acts)
    decreases |acts|
  {
    if acts != [] {
      var rest, used' := acts[1..], IdsAfter(m, used, acts[0]);
      forall i | 0 <= i < |rest| && rest[i].op.RegisterProof?
        ensures rest[i].id !in used' && forall j | 0 <= j < i && rest[j].op.RegisterProof? :: rest[j].id != rest[i].id
      {
        assert rest[i] == acts[i + 1];
        forall j | 0 <= j < i && rest[j].op.RegisterProof? ensures rest[j].id != rest[i].id {
          assert rest[j] == acts[j + 1];
        }
      }
      FreshSequencesAreTractable(Next(m, acts[0].op), used', RoomAfter(room, acts[0]), rest);
    }
  }

  /** `hash(env, byte)` repeats one byte 32 times; it is identified here by that byte. */
  function HashOfByte(byte: nat): Hash {
    Hash(byte)
  }

  const FIXTURE_PROOF := 0xD1

  /** The discriminator of step `i` is `0x40u8.wrapping_add(i as u8)`. */
  ghost predicate FromHarness(acts: seq<Action>) {
    forall i | 0 <= i < |acts| :: acts[i].id == HashOfByte((0x40 + i) % 256)
  }

  /** The harness's discriminators are fresh for sequences of up to 145 operations. */
  lemma HarnessIdsAreFresh(acts: seq<Action>)
    requires FromHarness(acts) && |acts| <= 145
    ensures FreshIds({HashOfByte(FIXTURE_PROOF)}, acts)
  {
  }

  /** A registration that reuses an id, after nothing but harmless operations, ends the agreement. */
  lemma {:induction false} CollisionAfterIdling(used: set<Hash>, room: nat, acts: seq<Action>, j: nat)
    requires j < |acts| && acts[j].op.RegisterProof? && acts[j].id in used
    requires forall i | 0 <= i < j :: acts[i].op.ReactivateIssuer?
    ensures !Tractable(START, used, room, acts)
    decreases j
  {
    if j > 0 {
      assert acts[0].op.ReactivateIssuer?;
      CollisionAfterIdling(used, room, acts[1..], j - 1);
    }
  }

  // ----- the deployment the harness builds -----

  /** The addresses the harness generates: usable as principals and different from each other. */
  predicate Generated(d: Deployment, admin: Address) {
    && IsValidPrincipal(admin) && IsValidPrincipal(d.issuer)
    && IsValidPrincipal(d.config) && IsValidPrincipal(d.issuers) && IsValidPrincipal(d.proofs)
    && d.config != d.issuers && d.config != d.proofs && d.issuers != d.proofs
    && d.issuer != d.proofs && d.issuer != d.config && d.issuer != d.issuers
    && d.schema != 0
  }

  function Deployer(d: Deployment, admin: Address): set<Address> {
    {admin, d.issuer}
  }

  function ConfigSteps(d: Deployment, admin: Address): seq<Step> {
    [Deploy(d.config, ConfigKind),
     Invoke(d.config, ToConfig(PC.Initialize(admin)), Deployer(d, admin)),
     Invoke(d.config, ToConfig(PC.ApproveSchemaVersion(d.schema)), Deployer(d, admin))]
  }

  function IssuerSteps(d: Deployment, admin: Address, metadata: Hash): seq<Step> {
    [Deploy(d.issuers, IssuersKind),
     Invoke(d.issuers, ToIssuers(IR.Initialize(admin)), Deployer(d, admin)),
     Invoke(d.issuers, ToIssuers(IR.RegisterIssuer(d.issuerId, d.issuer, metadata)), Deployer(d, admin))]
  }

  function ProofSteps(d: Deployment, admin: Address, commitment: Hash, expiresAt: nat): seq<Step> {
    [Deploy(d.proofs, ProofsKind),
     Invoke(d.proofs, ToProofs(PR.Initialize(admin, d.issuers, d.config)), Deployer(d, admin)),
     Invoke(d.proofs, ToProofs(PR.RegisterProof(d.fixture, commitment, d.issuer, d.schema, expiresAt)), Deployer(d, admin))]
  }

  function Run(w: World, steps: seq<Step>): World
    decreases |steps|
  {
    if steps == [] then w else Run(Apply(w, steps[0]), steps[1..])
  }

  /** `deployment_with_fixture`, on a ledger where the three addresses are free. */
  function SetUp(w: World, d: Deployment, admin: Address, metadata: Hash, commitment: Hash): World {
    Run(Run(Run(w, ConfigSteps(d, admin)), IssuerSteps(d, admin, metadata)),
        ProofSteps(d, admin, commitment, w.now + 100_000))
  }

  predicate Free(w: World, d: Deployment) {
    d.config !in w.contracts && d.issuers !in w.contracts && d.proofs !in w.contracts
  }

  /** Where `replay` begins. */
  predicate StartsModel(w: World, d: Deployment) {
    Deployed(w, d) && Observe(w, d) == START && UsedIds(w, d) == {d.fixture} && Room(w, d) == U32_MAX - 2
  }

  lemma {:induction false} RunThree(w: World, steps: seq<Step>)
    requires |steps| == 3
    ensures Run(w, steps) == Apply(Apply(Apply(w, steps[0]), steps[1]), steps[2])
  {
    var rest := steps[1..];
    assert rest == [steps[1], steps[2]] && rest[1..] == [steps[2]] && rest[1..][1..] == [];
    assert Run(Apply(w, steps[0]), rest) == Run(Apply(Apply(w, steps[0]), steps[1]), rest[1..]);
  }

  predicate ConfigReady(w: World, d: Deployment) {
    && d.config in w.contracts && w.contracts[d.config].Config?
    && var c := w.contracts[d.config].config;
    && c.core.admin.Some? && PC.SchemaApprovedIn(c, d.schema) && !c.paused && c.configVersion == 2
  }

  predicate IssuerReady(w: World, d: Deployment) {
    && d.issuers in w.contracts && w.contracts[d.issuers].Issuers?
    && var i := w.contracts[d.issuers].issuers;
    && i.core.admin.Some? && d.issuer in i.index && i.index[d.issuer] == d.issuerId
    && d.issuerId in i.issuers && i.issuers[d.issuerId].status.Active?
  }

  predicate RegistryReady(w: World, d: Deployment) {
    && d.proofs in w.contracts && w.contracts[d.proofs].Proofs?
    && var p := w.contracts[d.proofs].proofs;
    && p.core.admin.Some? && p.issuerRegistry == Some(d.issuers) && p.protocolConfig == Some(d.config) && p.proofs == map[]
  }

  /** `w'` is `w` with contract `a`, new to it, added. */
  predicate Adds(w: World, w': World, a: Address) {
    a in w'.contracts && w' == w.(contracts := w.contracts[a := w'.contracts[a]])
  }

  lemma {:induction false} ConfigIsSetUp(w: World, d: Deployment, admin: Address)
    requires Generated(d, admin) && d.config !in w.contracts
    ensures ConfigReady(Run(w, ConfigSteps(d, admin)), d) && Adds(w, Run(w, ConfigSteps(d, admin)), d.config)
  {
    RunThree(w, ConfigSteps(d, admin));
  }

  lemma {:induction false} IssuerIsSetUp(w: World, d: Deployment, admin: Address, metadata: Hash)
    requires Generated(d, admin) && d.issuers !in w.contracts
    ensures IssuerReady(Run(w, IssuerSteps(d, admin, metadata)), d)
    ensures Adds(w, Run(w, IssuerSteps(d, admin, metadata)), d.issuers)
  {
    RunThree(w, IssuerSteps(d, admin, metadata));
  }

  lemma RegistryIsSetUp(w: World, d: Deployment, admin: Address, commitment: Hash, expiresAt: nat)
    requires Generated(d, admin) && d.proofs !in w.contracts
    ensures
      var steps := ProofSteps(d, admin, commitment, expiresAt);
      var w' := Apply(Apply(w, steps[0]), steps[1]);
      RegistryReady(w', d) && Adds(w, w', d.proofs)
  {
  }

  lemma GateIsOpen(w: World, d: Deployment, admin: Address, commitment: Hash, expiresAt: nat)
    requires Generated(d, admin) && ConfigReady(w, d) && IssuerReady(w, d) && RegistryReady(w, d) && w.now < expiresAt
    ensures Succeeds(w, ProofSteps(d, admin, commitment, expiresAt)[2])
  {
    RegistrationIsGated(w, ProofSteps(d, admin, commitment, expiresAt)[2]);
  }

  /** What one successful registration leaves of the three contracts. */
  lemma RegistrationKeepsReady(w: World, d: Deployment, st: Step)
    requires ConfigReady(w, d) && IssuerReady(w, d) && RegistryReady(w, d)
    requires IsRegistration(st) && st.target == d.proofs && st.call.proofs.id == d.fixture && Succeeds(w, st)
    requires d.config != d.proofs && d.issuers != d.proofs
    ensures ConfigReady(Apply(w, st), d) && IssuerReady(Apply(w, st), d)
    ensures
      var c := Apply(w, st).contracts;
      && d.proofs in c && c[d.proofs].Proofs?
      && var p, p' := w.contracts[d.proofs].proofs, c[d.proofs].proofs;
      && p'.core == p.core && p'.issuerRegistry == p.issuerRegistry && p'.protocolConfig == p.protocolConfig
      && p'.proofs.Keys == {d.fixture} && p'.proofs[d.fixture].status.Active?
  {
    RegistrationIsGated(w, st);
    EachContractMovesAlone(w, st, d.config);
    EachContractMovesAlone(w, st, d.issuers);
  }

  lemma FixtureIsSetUp(w: World, d: Deployment, admin: Address, commitment: Hash, expiresAt: nat)
    requires Generated(d, admin) && ConfigReady(w, d) && IssuerReady(w, d) && RegistryReady(w, d) && w.now < expiresAt
    ensures StartsModel(Apply(w, ProofSteps(d, admin, commitment, expiresAt)[2]), d)
  {
    GateIsOpen(w, d, admin, commitment, expiresAt);
    RegistrationKeepsReady(w, d, ProofSteps(d, admin, commitment, expiresAt)[2]);
  }

  lemma {:induction false} ProofsAreSetUp(w: World, d: Deployment, admin: Address, commitment: Hash, expiresAt: nat)
    requires Generated(d, admin) && ConfigReady(w, d) && IssuerReady(w, d) && w.now < expiresAt && d.proofs !in w.contracts
    ensures StartsModel(Run(w, ProofSteps(d, admin, commitment, expiresAt)), d)
  {
    var steps := ProofSteps(d, admin, commitment, expiresAt);
    RunThree(w, steps);
    RegistryIsSetUp(w, d, admin, commitment, expiresAt);
    FixtureIsSetUp(Apply(Apply(w, steps[0]), steps[1]), d, admin, commitment, expiresAt);
  }

  lemma {:induction false} RestIsSetUp(w: World, d: Deployment, admin: Address, metadata: Hash, commitment: Hash, expiresAt: nat)
    requires Generated(d, admin) && ConfigReady(w, d) && w.now < expiresAt
    requires d.issuers !in w.contracts && d.proofs !in w.contracts
    ensures StartsModel(Run(Run(w, IssuerSteps(d, admin, metadata)), ProofSteps(d, admin, commitment, expiresAt)), d)
  {
    IssuerIsSetUp(w, d, admin, metadata);
    ProofsAreSetUp(Run(w, IssuerSteps(d, admin, metadata)), d, admin, commitment, expiresAt);
  }

  /** The harness's deployment is one the simulation starts from: on any ledger where its addresses are free, every
      set-up step goes through. */
  lemma SetUpIsDeployed(w: World, d: Deployment, admin: Address, metadata: Hash, commitment: Hash)
    requires Generated(d, admin) && Free(w, d)
    ensures StartsModel(SetUp(w, d, admin, metadata, commitment), d)
  {
    ConfigIsSetUp(w, d, admin);
    RestIsSetUp(Run(w, ConfigSteps(d, admin)), d, admin, metadata, commitment, w.now + 100_000);
  }

  lemma {:induction false} ConfigOpsAreActions(acts: seq<Action>)
    ensures ConfigOps(acts) <= |acts|
  {
    if acts != [] {
      ConfigOpsAreActions(acts[1..]);
    }
  }

  /** From deployment on, every sequence of up to 145 operations, with the data the harness generates for it, agrees
      with the emergency rules at every step. */
  lemma {:induction false} HarnessSequencesFollowModel(w: World, d: Deployment, admin: Address, metadata: Hash, commitment: Hash, acts: seq<Action>)
    requires Generated(d, admin) && Free(w, d) && d.fixture == HashOfByte(FIXTURE_PROOF)
    requires FromHarness(acts) && ValidSuccessors(acts) && |acts| <= 145
    ensures Deployed(SetUp(w, d, admin, metadata, commitment), d)
    ensures Agrees(SetUp(w, d, admin, metadata, commitment), d, START, acts)
  {
    SetUpIsDeployed(w, d, admin, metadata, commitment);
    FreshHarnessFollowsModel(SetUp(w, d, admin, metadata, commitment), d, acts);
  }

  lemma {:induction false} FreshHarnessFollowsModel(w: World, d: Deployment, acts: seq<Action>)
    requires StartsModel(w, d) && d.fixture == HashOfByte(FIXTURE_PROOF)
    requires FromHarness(acts) && ValidSuccessors(acts) && |acts| <= 145
    ensures Agrees(w, d, START, acts)
  {
    HarnessIdsAreFresh(acts);
    ConfigOpsAreActions(acts);
    FreshSequencesAreTractable(START, UsedIds(w, d), Room(w, d), acts);
    ContractsFollowModelExactlyWhenTractable(w, d, START, acts);
  }

  /** At step 145 the discriminator is the fixture's own: after 145 harmless operations on the real deployment, the
      contracts reject a registration that the rules accept. */
  lemma {:induction false} HarnessIdsCollideAtStep145(w: World, d: Deployment, admin: Address, metadata: Hash, commitment: Hash,
                                                     acts: seq<Action>)
    requires Generated(d, admin) && Free(w, d) && d.fixture == HashOfByte(FIXTURE_PROOF)
    requires FromHarness(acts) && |acts| > 145 && acts[145].op.RegisterProof?
    requires forall i | 0 <= i < 145 :: acts[i].op.ReactivateIssuer?
    ensures Deployed(SetUp(w, d, admin, metadata, commitment), d)
    ensures !Agrees(SetUp(w, d, admin, metadata, commitment), d, START, acts)
  {
    SetUpIsDeployed(w, d, admin, metadata, commitment);
    CollisionOnDeployment(SetUp(w, d, admin, metadata, commitment), d, acts);
  }

  lemma {:induction false} CollisionOnDeployment(w: World, d: Deployment, acts: seq<Action>)
    requires StartsModel(w, d) && d.fixture == HashOfByte(FIXTURE_PROOF)
    requires FromHarness(acts) && |acts| > 145 && acts[145].op.RegisterProof?
    requires forall i | 0 <= i < 145 :: acts[i].op.ReactivateIssuer?
    ensures !Agrees(w, d, START, acts)
  {
    CollisionAfterIdling(UsedIds(w, d), Room(w, d), acts, 145);
    ContractsFollowModelExactlyWhenTractable(w, d, START, acts);
  }

  function IdleThenRegister(n: nat): seq<Action> {
    seq(n, i requires 0 <= i < n =>
      Action(if i == 145 then RegisterProof else ReactivateIssuer, Address(""), HashOfByte((0x40 + i) % 256), Hash(0)))
  }

  /** The exact reach of the harness: it agrees with the rules on all sequences of a given length if and only if that
      length is at most 145. */
  lemma {:induction false} HarnessReachIs145(w: World, d: Deployment, admin: Address, metadata: Hash, commitment: Hash, n: nat)
    requires Generated(d, admin) && Free(w, d) && d.fixture == HashOfByte(FIXTURE_PROOF)
    ensures Deployed(SetUp(w, d, admin, metadata, commitment), d)
    ensures (forall acts | |acts| == n && FromHarness(acts) && ValidSuccessors(acts) ::
               Agrees(SetUp(w, d, admin, metadata, commitment), d, START, acts))
            <==> n <= 145
  {
    SetUpIsDeployed(w, d, admin, metadata, commitment);
    ReachFrom(SetUp(w, d, admin, metadata, commitment), d, n);
  }

  lemma {:induction false} ReachFrom(w: World, d: Deployment, n: nat)
    requires StartsModel(w, d) && d.fixture == HashOfByte(FIXTURE_PROOF)
    ensures (forall acts | |acts| == n && FromHarness(acts) && ValidSuccessors(acts) :: Agrees(w, d, START, acts)) <==> n <= 145
  {
    if n <= 145 {
      forall acts | |acts| == n && FromHarness(acts) && ValidSuccessors(acts) ensures Agrees(w, d, START, acts) {
        FreshHarnessFollowsModel(w, d, acts);
      }
    } else {
      var acts := IdleThenRegister(n);
      CollisionOnDeployment(w, d, acts);
      assert |acts| == n && FromHarness(acts) && ValidSuccessors(acts);
    }
  }
}
