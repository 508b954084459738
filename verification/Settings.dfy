/** What each stored setting is after any run: the argument of the last successful call that is meant to set it. */
module Settings {
  import opened Shared
  import opened Ledger
  import opened Latest
  import PC = ProtocolConfig
  import IR = IssuerRegistry
  import PR = ProofRegistry
  import UpgradeLaws

  /** Step `st` is a successful call to contract `b`. */
  predicate CallsFine(w: World, st: Step, b: Address) {
    st.Invoke? && st.target == b && Succeeds(w, st)
  }

  // ----- administrators and references -----

  function AdminOf(w: World, b: Address): Option<Address> {
    if b in w.contracts then CoreOf(w.contracts[b]).admin else None
  }

  /** The administrator that a call appoints. */
  function Appointed(call: Call): Option<Address> {
    match call
    case ToConfig(Initialize(a)) => Some(a)
    case ToConfig(SetAdmin(a)) => Some(a)
    case ToIssuers(Initialize(a)) => Some(a)
    case ToProofs(Initialize(a, _, _)) => Some(a)
    case _ => None
  }

  function AdminWrites(b: Address): Writer<Option<Address>> {
    (w: World, st: Step) => if CallsFine(w, st, b) && Appointed(st.call).Some? then Some(Appointed(st.call)) else None
  }

  predicate AppointsWell(before: Option<Address>, after: Option<Address>, call: Call) {
    after == if Appointed(call).Some? then Appointed(call) else before
  }

  lemma ConfigAdminMoves(s: PC.State, env: Env, c: PC.Call)
    requires PC.Exec(s, env, c).reply.Ok?
    ensures AppointsWell(s.core.admin, PC.Exec(s, env, c).state.core.admin, ToConfig(c))
  {
  }

  lemma IssuerAdminMoves(s: IR.State, env: Env, c: IR.Call)
    requires IR.Exec(s, env, c).reply.Ok?
    ensures AppointsWell(s.core.admin, IR.Exec(s, env, c).state.core.admin, ToIssuers(c))
  {
  }

  lemma ProofAdminMoves(s: PR.State, env: Env, c: PR.Call)
    requires !c.RegisterProof? && PR.Exec(s, env, c).reply.Ok?
    ensures AppointsWell(s.core.admin, PR.Exec(s, env, c).state.core.admin, ToProofs(c))
  {
  }

  lemma AdminMovesBy(w: World, st: Step, b: Address, l: LocalCall)
    requires b in w.contracts && CallOn(w, st, b) == Some(l)
    ensures AppointsWell(AdminOf(w, b), AdminOf(Apply(w, st), b), l.call)
  {
    EachContractMovesAlone(w, st, b);
    match w.contracts[b]
    case Config(s) => ConfigAdminMoves(s, l.env, l.call.config);
    case Issuers(s) => IssuerAdminMoves(s, l.env, l.call.issuers);
    case Proofs(s) =>
      if IsRegistration(st) {
        RegistrationIsGated(w, st);
      } else {
        ProofAdminMoves(s, l.env, l.call.proofs);
      }
  }

  lemma AdminMoves(w: World, st: Step, b: Address)
    ensures AdminOf(Apply(w, st), b)
         == if CallsFine(w, st, b) && Appointed(st.call).Some? then Appointed(st.call) else AdminOf(w, b)
  {
    EachContractMovesAlone(w, st, b);
    if b in w.contracts && CallOn(w, st, b).Some? {
      AdminMovesBy(w, st, b, CallOn(w, st, b).value);
    }
  }

  /** In every run a contract's administrator is the one named by the last successful initialization or rotation. */
  lemma {:induction false} AdminIsLatestAppointed(steps: seq<Step>, k: nat, b: Address)
    requires k <= |steps|
    ensures AdminOf(At(steps, k), b) == LatestWrite(steps, k, AdminWrites(b), None)
  {
    var field := (w: World) => AdminOf(w, b);
    forall w, st ensures Moves(field, AdminWrites(b), w, st) {
      AdminMoves(w, st, b);
    }
    FieldIsLatestWrite(steps, k, field, AdminWrites(b), None);
  }

  datatype References = References(issuerRegistry: Option<Address>, protocolConfig: Option<Address>)

  function ReferencesOf(w: World, b: Address): References {
    if b in w.contracts && w.contracts[b].Proofs? then
      References(w.contracts[b].proofs.issuerRegistry, w.contracts[b].proofs.protocolConfig)
    else References(None, None)
  }

  function ReferenceWrites(b: Address): Writer<References> {
    (w: World, st: Step) =>
      if CallsFine(w, st, b) && st.call.ToProofs? && st.call.proofs.Initialize? then
        Some(References(Some(st.call.proofs.issuerRegistry), Some(st.call.proofs.protocolConfig)))
      else None
  }

  lemma ReferencesMove(w: World, st: Step, b: Address)
    ensures Moves((w: World) => ReferencesOf(w, b), ReferenceWrites(b), w, st)
  {
    EachContractMovesAlone(w, st, b);
    if IsRegistration(st) {
      RegistrationIsGated(w, st);
    }
  }

  /** A proof registry refers to the two contracts named, each in its place, when it was initialized. */
  lemma {:induction false} ReferencesAreThoseOfInitialization(steps: seq<Step>, k: nat, b: Address)
    requires k <= |steps|
    ensures ReferencesOf(At(steps, k), b) == LatestWrite(steps, k, ReferenceWrites(b), References(None, None))
  {
    var field := (w: World) => ReferencesOf(w, b);
    forall w, st ensures Moves(field, ReferenceWrites(b), w, st) {
      ReferencesMove(w, st, b);
      assert field(w) == ((w: World) => ReferencesOf(w, b))(w);
      assert field(Apply(w, st)) == ((w: World) => ReferencesOf(w, b))(Apply(w, st));
    }
    FieldIsLatestWrite(steps, k, field, ReferenceWrites(b), References(None, None));
  }

  // ----- versions and the allowlist -----

  function VersionOf(w: World, b: Address): u32 {
    if b in w.contracts then CoreOf(w.contracts[b]).version else 0
  }

  function AllowedOf(w: World, b: Address, h: Hash): Option<u32> {
    if b in w.contracts && h in CoreOf(w.contracts[b]).allowed then Some(CoreOf(w.contracts[b]).allowed[h]) else None
  }

  predicate IsInitialize(call: Call) {
    match call
    case ToConfig(c) => c.Initialize?
    case ToIssuers(c) => c.Initialize?
    case ToProofs(c) => c.Initialize?
  }

  /** Initialization writes version 1, an upgrade the version that its hash was approved for. */
  function VersionWrite(w: World, st: Step, b: Address): Option<u32> {
    if !CallsFine(w, st, b) then None
    else if IsInitialize(st.call) then Some(1)
    else
      match UpgradeLaws.GovernanceIn(st.call)
      case Some(UpgradeContract(h)) => AllowedOf(w, b, h)
      case _ => None
  }

  function VersionWrites(b: Address): Writer<u32> {
    (w: World, st: Step) => VersionWrite(w, st, b)
  }

  /** An approval writes its version, a revocation or an upgrade removes the entry. */
  function AllowedWrite(w: World, st: Step, b: Address, h: Hash): Option<Option<u32>> {
    if !CallsFine(w, st, b) then None
    else
      match UpgradeLaws.GovernanceIn(st.call)
      case Some(ApproveUpgrade(x, v)) => if x == h then Some(Some(v)) else None
      case Some(RevokeUpgrade(x)) => if x == h then Some(None) else None
      case Some(UpgradeContract(x)) => if x == h then Some(None) else None
      case None => None
  }

  function AllowedWrites(b: Address, h: Hash): Writer<Option<u32>> {
    (w: World, st: Step) => AllowedWrite(w, st, b, h)
  }

  lemma InitializationComesFirst(w: World, st: Step, b: Address)
    requires CallsFine(w, st, b)
    ensures b in w.contracts && (IsInitialize(st.call) ==> AdminOf(w, b).None?)
    ensures !IsInitialize(st.call) && (Appointed(st.call).Some? || st.call == ToConfig(PC.Pause)) ==> AdminOf(w, b).Some?
  {
  }

  lemma VersionMoves(w: World, st: Step, b: Address)
    ensures VersionOf(Apply(w, st), b) == match VersionWrite(w, st, b) case Some(v) => v case None => VersionOf(w, b)
  {
    AdminMoves(w, st, b);
    if b in w.contracts {
      UpgradeLaws.CoresStep(w, st, b);
      if CallsFine(w, st, b) {
        InitializationComesFirst(w, st, b);
      }
    } else {
      EachContractMovesAlone(w, st, b);
    }
  }

  lemma AllowedMoves(w: World, st: Step, b: Address, h: Hash)
    ensures AllowedOf(Apply(w, st), b, h) == match AllowedWrite(w, st, b, h) case Some(v) => v case None => AllowedOf(w, b, h)
  {
    if b in w.contracts {
      UpgradeLaws.CoresStep(w, st, b);
    } else {
      EachContractMovesAlone(w, st, b);
    }
  }

  /** ContractVersion is 0 before initialization, 1 from then on, and after upgrades the version approved for the last
      hash applied. */
  lemma {:induction false} VersionIsLatestInstalled(steps: seq<Step>, k: nat, b: Address)
    requires k <= |steps|
    ensures VersionOf(At(steps, k), b) == LatestWrite(steps, k, VersionWrites(b), 0)
  {
    var field := (w: World) => VersionOf(w, b);
    forall w, st ensures Moves(field, VersionWrites(b), w, st) {
      VersionMoves(w, st, b);
    }
    FieldIsLatestWrite(steps, k, field, VersionWrites(b), 0);
  }

  /** The allowlist holds for each hash exactly the version of its last approval, unless it was revoked or applied
      since. */
  lemma {:induction false} AllowlistIsLatestApproval(steps: seq<Step>, k: nat, b: Address, h: Hash)
    requires k <= |steps|
    ensures AllowedOf(At(steps, k), b, h) == LatestWrite(steps, k, AllowedWrites(b, h), None)
  {
    var field := (w: World) => AllowedOf(w, b, h);
    forall w, st ensures Moves(field, AllowedWrites(b, h), w, st) {
      AllowedMoves(w, st, b, h);
    }
    FieldIsLatestWrite(steps, k, field, AllowedWrites(b, h), None);
  }

  // ----- protocol-config -----

  predicate PausedIn(w: World, b: Address) {
    ConfigAt(w, Some(b)).Some? && ConfigAt(w, Some(b)).value.paused
  }

  function PauseWrite(w: World, st: Step, b: Address): Option<bool> {
    if !CallsFine(w, st, b) || !st.call.ToConfig? then None
    else
      match st.call.config
      case Pause => Some(true)
      case Unpause => Some(false)
      case Initialize(_) => Some(false)
      case _ => None
  }

  function PauseWrites(b: Address): Writer<bool> {
    (w: World, st: Step) => PauseWrite(w, st, b)
  }

  /** The answer of `is_schema_version_approved`. */
  predicate ApprovedIn(w: World, b: Address, v: u32) {
    ConfigAt(w, Some(b)).Some? && PC.SchemaApprovedIn(ConfigAt(w, Some(b)).value, v)
  }

  function SchemaWrite(w: World, st: Step, b: Address, v: u32): Option<bool> {
    if CallsFine(w, st, b) && st.call == ToConfig(PC.ApproveSchemaVersion(v)) then Some(true)
    else if CallsFine(w, st, b) && st.call == ToConfig(PC.DeprecateSchemaVersion(v)) then Some(false)
    else None
  }

  function SchemaWrites(b: Address, v: u32): Writer<bool> {
    (w: World, st: Step) => SchemaWrite(w, st, b, v)
  }

  lemma ConfigSettingsMove(s: PC.State, env: Env, c: PC.Call, v: u32)
    requires PC.Exec(s, env, c).reply.Ok?
    ensures
      var s' := PC.Exec(s, env, c).state;
      && s'.paused == (if c.Pause? then true else if c.Unpause? || c.Initialize? then false else s.paused)
      && PC.SchemaApprovedIn(s', v)
         == (if c == PC.ApproveSchemaVersion(v) then true else if c == PC.DeprecateSchemaVersion(v) then false
             else PC.SchemaApprovedIn(s, v))
  {
  }

  lemma ConfigMoves(w: World, st: Step, b: Address, v: u32)
    ensures PausedIn(Apply(w, st), b) == match PauseWrite(w, st, b) case Some(x) => x case None => PausedIn(w, b)
    ensures ApprovedIn(Apply(w, st), b, v) == match SchemaWrite(w, st, b, v) case Some(x) => x case None => ApprovedIn(w, b, v)
  {
    EachContractMovesAlone(w, st, b);
    if b in w.contracts && w.contracts[b].Config? && CallOn(w, st, b).Some? {
      var l := CallOn(w, st, b).value;
      ConfigSettingsMove(w.contracts[b].config, l.env, l.call.config, v);
    }
  }

  /** A config is paused exactly when the last successful pause or unpause was a pause. */
  lemma {:induction false} PauseIsLatest(steps: seq<Step>, k: nat, b: Address)
    requires k <= |steps|
    ensures PausedIn(At(steps, k), b) == LatestWrite(steps, k, PauseWrites(b), false)
  {
    var field := (w: World) => PausedIn(w, b);
    forall w, st ensures Moves(field, PauseWrites(b), w, st) {
      ConfigMoves(w, st, b, 0);
    }
    FieldIsLatestWrite(steps, k, field, PauseWrites(b), false);
  }

  /** A schema is approved exactly when the last successful approval or deprecation of it was an approval. */
  lemma {:induction false} ApprovalIsLatest(steps: seq<Step>, k: nat, b: Address, v: u32)
    requires k <= |steps|
    ensures ApprovedIn(At(steps, k), b, v) == LatestWrite(steps, k, SchemaWrites(b, v), false)
  {
    var field := (w: World) => ApprovedIn(w, b, v);
    forall w, st ensures Moves(field, SchemaWrites(b, v), w, st) {
      ConfigMoves(w, st, b, v);
    }
    FieldIsLatestWrite(steps, k, field, SchemaWrites(b, v), false);
  }

  lemma {:induction false} LatestAfter<V>(steps: seq<Step>, j: nat, k: nat, write: Writer<V>, start: V, v: V)
    requires j < k <= |steps| && write(At(steps, j), steps[j]) == Some(v)
    requires forall m: nat | j < m < k :: var x := write(At(steps, m), steps[m]); x.None? || x == Some(v)
    ensures LatestWrite(steps, k, write, start) == v
    decreases k
  {
    if k > j + 1 {
      LatestAfter(steps, j, k - 1, write, start, v);
    }
  }

  /** Step `j` is a successful call `c` to contract `b`. */
  predicate Does(steps: seq<Step>, j: nat, b: Address, c: Call) {
    j < |steps| && CallsFine(At(steps, j), steps[j], b) && steps[j].call == c
  }

  ghost predicate NeverBetween(steps: seq<Step>, j: nat, k: nat, b: Address, c: Call) {
    forall m: nat | j < m < k :: !Does(steps, m, b, c)
  }

  /** A registration names a config in which the schema is deprecated or which is paused: it fails. */
  lemma ClosedGate(w: World, st: Step, p: Address, b: Address)
    requires IsRegistration(st) && st.target == p && ReferencesOf(w, p).protocolConfig == Some(b)
    requires !ApprovedIn(w, b, st.call.proofs.schema) || PausedIn(w, b)
    ensures !Succeeds(w, st)
  {
    RegistrationIsGated(w, st);
  }

  /** Between the deprecation of a schema and its next approval no registration under it succeeds anywhere. */
  lemma {:induction false} DeprecationClosesSchema(steps: seq<Step>, j: nat, k: nat, b: Address, p: Address, v: u32)
    requires j < k < |steps| && Does(steps, j, b, ToConfig(PC.DeprecateSchemaVersion(v)))
    requires NeverBetween(steps, j, k, b, ToConfig(PC.ApproveSchemaVersion(v)))
    requires IsRegistration(steps[k]) && steps[k].target == p && steps[k].call.proofs.schema == v
    requires ReferencesOf(At(steps, k), p).protocolConfig == Some(b)
    ensures !Succeeds(At(steps, k), steps[k])
  {
    SchemaStaysDeprecated(steps, j, k, b, v);
    ClosedGate(At(steps, k), steps[k], p, b);
  }

  lemma {:induction false} SchemaStaysDeprecated(steps: seq<Step>, j: nat, k: nat, b: Address, v: u32)
    requires j < k <= |steps| && Does(steps, j, b, ToConfig(PC.DeprecateSchemaVersion(v)))
    requires NeverBetween(steps, j, k, b, ToConfig(PC.ApproveSchemaVersion(v)))
    ensures !ApprovedIn(At(steps, k), b, v)
  {
    var write := SchemaWrites(b, v);
    forall m: nat | j < m < k ensures write(At(steps, m), steps[m]) != Some(true) {
      assert !Does(steps, m, b, ToConfig(PC.ApproveSchemaVersion(v)));
    }
    LatestAfter(steps, j, k, write, false, false);
    ApprovalIsLatest(steps, k, b, v);
  }

  /** Between a pause and the next unpause no registration at a registry that refers to the config succeeds. */
  lemma {:induction false} PauseClosesRegistration(steps: seq<Step>, j: nat, k: nat, b: Address, p: Address)
    requires j < k < |steps| && Does(steps, j, b, ToConfig(PC.Pause)) && NeverBetween(steps, j, k, b, ToConfig(PC.Unpause))
    requires IsRegistration(steps[k]) && steps[k].target == p
    requires ReferencesOf(At(steps, k), p).protocolConfig == Some(b)
    ensures !Succeeds(At(steps, k), steps[k])
  {
    ConfigStaysPaused(steps, j, k, b);
    ClosedGate(At(steps, k), steps[k], p, b);
  }

  lemma {:induction false} ConfigStaysPaused(steps: seq<Step>, j: nat, k: nat, b: Address)
    requires j < k <= |steps| && Does(steps, j, b, ToConfig(PC.Pause)) && NeverBetween(steps, j, k, b, ToConfig(PC.Unpause))
    ensures PausedIn(At(steps, k), b) && AdminOf(At(steps, k), b).Some?
    decreases k
  {
    var w, st := At(steps, k - 1), steps[k - 1];
    if k == j + 1 {
      InitializationComesFirst(w, st, b);
    } else {
      ConfigStaysPaused(steps, j, k - 1, b);
      assert !Does(steps, k - 1, b, ToConfig(PC.Unpause));
      if CallsFine(w, st, b) {
        InitializationComesFirst(w, st, b);
      }
    }
    AdminMoves(w, st, b);
    ConfigMoves(w, st, b, 0);
  }
}
