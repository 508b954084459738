/** Which reply each entry point gives, at any point of any run: the checks in the order in which they are made, with the
    error of each. The facts they test are stated of the ledger, by scans and not through the address index. */
module Replies {
  import opened Shared
  import opened Ledger
  import opened Settings
  import opened IssuerHistory
  import Upgrade
  import UpgradeLaws
  import PC = ProtocolConfig
  import IR = IssuerRegistry
  import PR = ProofRegistry
  import IssuerLaws
  import ProofLaws

  /** One check: if it fails, the reply is `otherwise`. */
  function Unless(passes: bool, otherwise: Reply, next: Reply): Reply {
    if passes then next else otherwise
  }

  predicate Consents(admin: Option<Address>, auth: set<Address>) {
    admin.Some? && admin.value in auth
  }

  /** The one well-formed text that is refused as a principal: the strkey of the all-zero public key. */
  function ZeroKey(): string {
    "G" + seq(52, _ => 'A') + "WHF"
  }

  lemma PrincipalsAreStrkeys(a: Address)
    ensures IsValidPrincipal(a) <==>
      && |a.strkey| == 56 && a.strkey != ZeroKey()
      && forall i | 0 <= i < |a.strkey| :: 'A' <= a.strkey[i] <= 'Z' || '2' <= a.strkey[i] <= '7'
  {
    if IsZeroOrSentinel(a) {
      assert a.strkey == ZeroKey();
    }
  }

  // ----- every contract -----

  /** An approval must raise the version, an upgrade needs an approval that still raises it. Failures are panics. */
  function GovernanceReply(w: World, b: Address, g: Upgrade.Call, auth: set<Address>): Reply {
    Unless(Consents(AdminOf(w, b), auth), Trap,
    Unless(g.ApproveUpgrade? ==> g.newVersion > VersionOf(w, b), Trap,
    Unless(g.UpgradeContract? ==> AllowedOf(w, b, g.hash).Some?, Trap,
    Unless(g.UpgradeContract? ==> AllowedOf(w, b, g.hash).Some? && AllowedOf(w, b, g.hash).value > VersionOf(w, b), Trap,
    Ok(Unit)))))
  }

  predicate Understands(i: Instance, call: Call) {
    (i.Config? && call.ToConfig?) || (i.Issuers? && call.ToIssuers?) || (i.Proofs? && call.ToProofs?)
  }

  lemma GovernanceReplies(w: World, b: Address, call: Call, auth: set<Address>)
    requires b in w.contracts && Understands(w.contracts[b], call) && UpgradeLaws.GovernanceIn(call).Some?
    ensures Attempt(w, b, call, auth).reply == GovernanceReply(w, b, UpgradeLaws.GovernanceIn(call).value, auth)
  {
  }

  /** Anything asked of an address without a contract, or of a contract of another kind, traps. */
  lemma StrangersTrap(w: World, b: Address, call: Call, auth: set<Address>)
    requires b in w.contracts ==> !Understands(w.contracts[b], call)
    ensures Attempt(w, b, call, auth).reply == Trap
  {
  }

  // ----- protocol-config -----

  function InitializeReply(admin: Option<Address>, named: Address, auth: set<Address>): Reply {
    Unless(admin.None?, Err(AlreadyInitialized),
    Unless(IsValidPrincipal(named), Err(InvalidInput),
    Unless(named in auth, Trap,
    Ok(Unit))))
  }

  predicate NamesSchemaZero(c: PC.Call) {
    (c.ApproveSchemaVersion? || c.DeprecateSchemaVersion?) && c.schema == 0
  }

  function MutationReply(admin: Option<Address>, counter: u32, c: PC.Call, auth: set<Address>): Reply {
    Unless(admin.Some?, Err(NotInitialized),
    Unless(c.SetAdmin? ==> IsValidPrincipal(c.newAdmin), Err(InvalidInput),
    Unless(Consents(admin, auth), Trap,
    Unless(!NamesSchemaZero(c), Err(InvalidInput),
    Unless(counter < U32_MAX, Trap,
    Ok(Unit))))))
  }

  lemma ConfigReplies(w: World, b: Address, c: PC.Call, auth: set<Address>)
    requires ConfigAt(w, Some(b)).Some? && !c.Govern?
    ensures
      Attempt(w, b, ToConfig(c), auth).reply ==
      match c
      case Initialize(a) => InitializeReply(AdminOf(w, b), a, auth)
      case IsSchemaVersionApproved(v) => Ok(Flag(ApprovedIn(w, b, v)))
      case _ => MutationReply(AdminOf(w, b), ConfigAt(w, Some(b)).value.configVersion, c, auth)
  {
  }

  // ----- issuer-registry -----

  /** Some issuer of registry `b` holds `a`. */
  ghost predicate Taken(w: World, b: Address, a: Address) {
    exists id :: AddressOf(RecordOf(w, b, id)) == Some(a)
  }

  predicate IsRevokedRecord(r: Option<IssuerRecord>) {
    StatusOf(r) == Some(IssuerStatus.Revoked)
  }

  ghost function RegisterReply(w: World, b: Address, id: Hash, a: Address, auth: set<Address>): Reply {
    Unless(AdminOf(w, b).Some?, Err(IssuerNotFound),
    Unless(IsValidPrincipal(a), Err(InvalidIssuerAddress),
    Unless(Consents(AdminOf(w, b), auth), Trap,
    Unless(RecordOf(w, b, id).None?, Err(IssuerAlreadyRegistered),
    Unless(!Taken(w, b, a), Err(IssuerAddressAlreadyRegistered),
    Ok(Unit))))))
  }

  function UpdateReply(w: World, b: Address, id: Hash, auth: set<Address>): Reply {
    Unless(AdminOf(w, b).Some?, Err(IssuerNotFound),
    Unless(Consents(AdminOf(w, b), auth), Trap,
    Unless(RecordOf(w, b, id).Some?, Err(IssuerNotFound),
    Unless(!IsRevokedRecord(RecordOf(w, b, id)), Err(IssuerIsRevoked),
    Ok(Unit)))))
  }

  function StatusReply(w: World, b: Address, id: Hash, status: IssuerStatus, auth: set<Address>): Reply {
    Unless(AdminOf(w, b).Some?, Err(IssuerNotFound),
    Unless(Consents(AdminOf(w, b), auth), Trap,
    Unless(RecordOf(w, b, id).Some?, Err(IssuerNotFound),
    Unless(IsRevokedRecord(RecordOf(w, b, id)) ==> status.Revoked?, Err(InvalidTransition),
    Ok(Unit)))))
  }

  ghost function RotateReply(w: World, b: Address, id: Hash, a: Address, auth: set<Address>): Reply {
    Unless(AdminOf(w, b).Some?, Err(IssuerNotFound),
    Unless(IsValidPrincipal(a), Err(InvalidIssuerAddress),
    Unless(Consents(AdminOf(w, b), auth), Trap,
    Unless(RecordOf(w, b, id).Some?, Err(IssuerNotFound),
    Unless(!IsRevokedRecord(RecordOf(w, b, id)), Err(IssuerIsRevoked),
    Unless(AddressOf(RecordOf(w, b, id)) != Some(a), Err(InvalidIssuerAddress),
    Unless(!Taken(w, b, a), Err(IssuerAddressAlreadyRegistered),
    Ok(Unit))))))))
  }

  lemma {:induction false} IndexTellsTaken(steps: seq<Step>, k: nat, b: Address, a: Address)
    requires k <= |steps| && IssuersAt(At(steps, k), Some(b)).Some?
    ensures a in IssuersAt(At(steps, k), Some(b)).value.index <==> Taken(At(steps, k), b, a)
  {
    IssuerLaws.IndexAndRecordsAreInverse(steps, k, b);
    var s := At(steps, k).contracts[b].issuers;
    if a in s.index {
      assert AddressOf(RecordOf(At(steps, k), b, s.index[a])) == Some(a);
    }
  }

  lemma {:induction false} RegisterReplies(steps: seq<Step>, k: nat, b: Address, id: Hash, a: Address, m: Hash, auth: set<Address>)
    requires k <= |steps| && IssuersAt(At(steps, k), Some(b)).Some?
    ensures Attempt(At(steps, k), b, ToIssuers(IR.RegisterIssuer(id, a, m)), auth).reply
         == RegisterReply(At(steps, k), b, id, a, auth)
  {
    IndexTellsTaken(steps, k, b, a);
  }

  lemma {:induction false} RotateReplies(steps: seq<Step>, k: nat, b: Address, id: Hash, a: Address, auth: set<Address>)
    requires k <= |steps| && IssuersAt(At(steps, k), Some(b)).Some?
    ensures Attempt(At(steps, k), b, ToIssuers(IR.RotateIssuerAddress(id, a)), auth).reply
         == RotateReply(At(steps, k), b, id, a, auth)
  {
    IndexTellsTaken(steps, k, b, a);
  }

  lemma IssuerReplies(w: World, b: Address, c: IR.Call, auth: set<Address>)
    requires IssuersAt(w, Some(b)).Some?
    ensures
      var reply := Attempt(w, b, ToIssuers(c), auth).reply;
      match c
      case Initialize(a) => reply == InitializeReply(AdminOf(w, b), a, auth)
      case UpdateIssuer(id, _) => reply == UpdateReply(w, b, id, auth)
      case SetStatus(id, st) => reply == StatusReply(w, b, id, st, auth)
      case GetIssuer(id) =>
        reply == (if RecordOf(w, b, id).Some? then Ok(Issuer(RecordOf(w, b, id).value)) else Err(IssuerNotFound))
      case IsActiveIssuer(id) => reply == Ok(Flag(StatusOf(RecordOf(w, b, id)) == Some(IssuerStatus.Active)))
      case _ => true
  {
  }

  // ----- proof-registry -----

  function RegistryInitializeReply(w: World, p: Address, c: PR.Call, auth: set<Address>): Reply
    requires c.Initialize?
  {
    Unless(AdminOf(w, p).None?, Err(AlreadyInitialized),
    Unless(IsValidPrincipal(c.admin), Err(InvalidInput),
    Unless(IsValidPrincipal(c.issuerRegistry) && IsValidPrincipal(c.protocolConfig), Err(InvalidInput),
    Unless(c.issuerRegistry != p && c.protocolConfig != p && c.issuerRegistry != c.protocolConfig, Err(InvalidInput),
    Unless(c.admin in auth, Trap,
    Ok(Unit))))))
  }

  ghost predicate ActivelyHeld(w: World, b: Option<Address>, a: Address) {
    b.Some? && exists id :: AddressOf(RecordOf(w, b.value, id)) == Some(a)
                            && StatusOf(RecordOf(w, b.value, id)) == Some(IssuerStatus.Active)
  }

  ghost function RegistrationReply(w: World, p: Address, c: PR.Call, auth: set<Address>): Reply
    requires c.RegisterProof? && p in w.contracts && w.contracts[p].Proofs?
  {
    var refs := ReferencesOf(w, p);
    Unless(IsValidPrincipal(c.issuer), Err(InvalidProofAddress),
    Unless(refs.protocolConfig.Some? && refs.issuerRegistry.Some?, Err(ProofNotFound),
    Unless(c.issuer != p && refs.protocolConfig != Some(c.issuer) && refs.issuerRegistry != Some(c.issuer), Err(InvalidProofAddress),
    Unless(c.issuer in auth, Trap,
    Unless(c.schema >= 1, Err(InvalidSchemaVersion),
    Unless(w.now < c.expiresAt, Err(ProofExpired),
    Unless(ConfigAt(w, refs.protocolConfig).Some?, Trap,
    Unless(refs.protocolConfig.Some? && !PausedIn(w, refs.protocolConfig.value), Err(InvalidSchemaVersion),
    Unless(refs.protocolConfig.Some? && ApprovedIn(w, refs.protocolConfig.value, c.schema), Err(SchemaVersionNotApproved),
    Unless(IssuersAt(w, refs.issuerRegistry).Some?, Trap,
    Unless(ActivelyHeld(w, refs.issuerRegistry, c.issuer), Err(InvalidSchemaVersion),
    Unless(c.id !in w.contracts[p].proofs.proofs, Err(ProofAlreadyRegistered),
    Ok(Unit)))))))))))))
  }

  lemma {:induction false} IndexTellsHeld(steps: seq<Step>, k: nat, b: Address, a: Address)
    requires k <= |steps| && IssuersAt(At(steps, k), Some(b)).Some?
    ensures IndexedActive(IssuersAt(At(steps, k), Some(b)).value, a) <==> ActivelyHeld(At(steps, k), Some(b), a)
  {
    IssuerLaws.IndexAndRecordsAreInverse(steps, k, b);
    var s := At(steps, k).contracts[b].issuers;
    if a in s.index {
      assert AddressOf(RecordOf(At(steps, k), b, s.index[a])) == Some(a);
    }
  }

  lemma RegistrationTable(w: World, p: Address, c: PR.Call, auth: set<Address>)
    requires c.RegisterProof? && p in w.contracts && w.contracts[p].Proofs?
    requires forall b, a | IssuersAt(w, Some(b)).Some? :: IndexedActive(IssuersAt(w, Some(b)).value, a) <==> ActivelyHeld(w, Some(b), a)
    ensures Attempt(w, p, ToProofs(c), auth).reply == RegistrationReply(w, p, c, auth)
  {
  }

  lemma {:induction false} RegistrationReplies(steps: seq<Step>, k: nat, p: Address, c: PR.Call, auth: set<Address>)
    requires k <= |steps| && c.RegisterProof? && p in At(steps, k).contracts && At(steps, k).contracts[p].Proofs?
    ensures Attempt(At(steps, k), p, ToProofs(c), auth).reply == RegistrationReply(At(steps, k), p, c, auth)
  {
    forall b, a | IssuersAt(At(steps, k), Some(b)).Some?
      ensures IndexedActive(IssuersAt(At(steps, k), Some(b)).value, a) <==> ActivelyHeld(At(steps, k), Some(b), a)
    {
      IndexTellsHeld(steps, k, b, a);
    }
    RegistrationTable(At(steps, k), p, c, auth);
  }

  function RevocationReply(w: World, p: Address, id: Hash, revoker: Option<Address>, auth: set<Address>): Reply
    requires p in w.contracts && w.contracts[p].Proofs?
  {
    Unless(id in w.contracts[p].proofs.proofs, Err(ProofNotFound),
    Unless(Consents(revoker, auth), Trap,
    Unless(!PR.RevokedIn(w.contracts[p].proofs, id), Err(ProofAlreadyRevoked),
    Ok(Unit))))
  }

  lemma {:induction false} RegistryReplies(steps: seq<Step>, k: nat, p: Address, c: PR.Call, auth: set<Address>)
    requires k <= |steps| && p in At(steps, k).contracts && At(steps, k).contracts[p].Proofs?
    ensures
      var w := At(steps, k);
      var proofs := w.contracts[p].proofs.proofs;
      var reply := Attempt(w, p, ToProofs(c), auth).reply;
      match c
      case Initialize(_, _, _) => reply == RegistryInitializeReply(w, p, c, auth)
      case RevokeProof(id) =>
        reply == RevocationReply(w, p, id, if id in proofs then Some(proofs[id].issuer) else None, auth)
      case AdminRevokeProof(id) => reply == RevocationReply(w, p, id, AdminOf(w, p), auth)
      case _ => true
  {
    ProofLaws.RegistryIsWellKept(steps, k, p);
  }
}
