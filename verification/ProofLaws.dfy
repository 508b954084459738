/** What holds of every proof registry in every run. */
module ProofLaws {
  import opened Shared
  import opened Ledger
  import PC = ProtocolConfig
  import IR = IssuerRegistry
  import PR = ProofRegistry
  import IssuerLaws

  // ----- what a registry's storage always looks like -----

  predicate RecordIsSound(r: ProofRecord, id: Hash, now: nat) {
    && r.id == id
    && r.schema >= 1
    && r.createdAt <= now
    && r.createdAt < r.expiresAt
    && (r.status.Active? ==> r.revokedAt == 0)
    && (r.status.Revoked? ==> r.createdAt <= r.revokedAt <= now)
  }

  predicate References(s: PR.State, self: Address) {
    && (s.core.admin.Some? <==> s.issuerRegistry.Some?)
    && (s.core.admin.Some? <==> s.protocolConfig.Some?)
    && s.issuerRegistry != Some(self) && s.protocolConfig != Some(self)
    && (s.core.admin.Some? ==> s.issuerRegistry != s.protocolConfig)
  }

  ghost predicate WellKept(s: PR.State, self: Address, now: nat) {
    && References(s, self)
    && (forall id | id in s.proofs :: RecordIsSound(s.proofs[id], id, now))
    && (forall id | id in s.proofs ::
          s.core.admin.Some? && s.proofs[id].issuer != self
          && s.issuerRegistry != Some(s.proofs[id].issuer) && s.protocolConfig != Some(s.proofs[id].issuer))
  }

  lemma EveryCallKeepsWellKept(s: PR.State, env: Env, c: PR.Call)
    requires !c.RegisterProof? && WellKept(s, env.self, env.now)
    ensures WellKept(PR.Exec(s, env, c).state, env.self, env.now)
  {
  }

  lemma RegistrationKeepsWellKept(s: PR.State, env: Env, c: PR.Call)
    requires c.RegisterProof? && WellKept(s, env.self, env.now) && PR.LocalCheck(s, env, c).Ok?
    ensures WellKept(PR.Stored(s, env, c.id, PR.NewRecord(env, c)), env.self, env.now)
  {
  }

  /** In every reachable state all proofs are sound, the references are two other contracts, no proof is issued by
      the registry or by either reference, and a registry with proofs is initialized; so the missing-administrator
      branch of administrative revocation is dead. */
  lemma {:induction false} RegistryIsWellKept(steps: seq<Step>, k: nat, p: Address)
    requires k <= |steps| && p in At(steps, k).contracts && At(steps, k).contracts[p].Proofs?
    ensures WellKept(At(steps, k).contracts[p].proofs, p, At(steps, k).now)
    decreases k
  {
    if k > 0 {
      var w, st := At(steps, k - 1), steps[k - 1];
      EachContractMovesAlone(w, st, p);
      if p in w.contracts {
        RegistryIsWellKept(steps, k - 1, p);
        var s, l := w.contracts[p].proofs, CallOn(w, st, p);
        if l.Some? {
          if IsRegistration(st) {
            RegistrationIsGated(w, st);
            RegistrationKeepsWellKept(s, l.value.env, st.call.proofs);
          } else {
            EveryCallKeepsWellKept(s, l.value.env, l.value.call.proofs);
          }
        }
      }
    }
  }

  // ----- what never changes once written -----

  predicate SameProof(r: ProofRecord, r': ProofRecord) {
    && r' == r.(status := r'.status, revokedAt := r'.revokedAt)
    && (r.status.Revoked? ==> r' == r)
  }

  /** `s'` keeps the administrator, both references and every proof of `s`; only a revocation may have been added. */
  ghost predicate Keeps(s: PR.State, s': PR.State) {
    && (s.core.admin.Some? ==>
          s'.core.admin == s.core.admin && s'.issuerRegistry == s.issuerRegistry && s'.protocolConfig == s.protocolConfig)
    && forall id | id in s.proofs :: id in s'.proofs && SameProof(s.proofs[id], s'.proofs[id])
  }

  lemma EveryCallKeeps(s: PR.State, env: Env, c: PR.Call)
    requires !c.RegisterProof?
    ensures Keeps(s, PR.Exec(s, env, c).state)
  {
  }

  lemma {:induction false} RegistryKeepsItsProofs(steps: seq<Step>, i: nat, k: nat, p: Address)
    requires i <= k <= |steps| && p in At(steps, i).contracts && At(steps, i).contracts[p].Proofs?
    ensures p in At(steps, k).contracts && At(steps, k).contracts[p].Proofs?
    ensures Keeps(At(steps, i).contracts[p].proofs, At(steps, k).contracts[p].proofs)
    decreases k
  {
    if i < k {
      RegistryKeepsItsProofs(steps, i, k - 1, p);
      var w, st := At(steps, k - 1), steps[k - 1];
      EachContractMovesAlone(w, st, p);
      var s, l := w.contracts[p].proofs, CallOn(w, st, p);
      if l.Some? {
        if IsRegistration(st) {
          RegistrationIsGated(w, st);
        } else {
          EveryCallKeeps(s, l.value.env, l.value.call.proofs);
        }
      }
    }
  }

  // ----- where a proof comes from -----

  predicate RegistersProof(steps: seq<Step>, j: nat, p: Address, id: Hash) {
    && j < |steps| && IsRegistration(steps[j]) && steps[j].target == p && steps[j].call.proofs.id == id
    && Succeeds(At(steps, j), steps[j])
  }

  /** Exactly one record of the registry holds `a`, and it is Active. */
  ghost predicate OneActiveHolder(s: IR.State, a: Address) {
    exists id ::
      && IssuerLaws.Holds(s, id, a) && s.issuers[id].status.Active?
      && forall other :: IssuerLaws.Holds(s, other, a) ==> other == id
  }

  /** Record `r` holds what registration `c` was given, each argument in its place. */
  predicate Carries(r: ProofRecord, c: PR.Call)
    requires c.RegisterProof?
  {
    && r.id == c.id && r.commitment == c.commitment && r.issuer == c.issuer
    && r.schema == c.schema && r.expiresAt == c.expiresAt
  }

  /** Record `r` carries the arguments of registration `st` made in world `w` with the consent of its issuer, while
      the config that registry `s` refers to was unpaused and approved the schema, and exactly one issuer of the
      issuer registry it refers to, an Active one, held the issuer address. */
  ghost predicate Legitimate(w: World, st: Step, s: PR.State, r: ProofRecord)
    requires IsRegistration(st)
  {
    && Carries(r, st.call.proofs)
    && r.createdAt == w.now < r.expiresAt
    && r.issuer in st.auth
    && var config := ConfigAt(w, s.protocolConfig);
    && config.Some? && !config.value.paused && PC.SchemaApprovedIn(config.value, r.schema)
    && var issuers := IssuersAt(w, s.issuerRegistry);
    && issuers.Some? && OneActiveHolder(issuers.value, r.issuer)
  }

  lemma {:induction false} GateMeansOneActiveHolder(steps: seq<Step>, j: nat, b: Address, a: Address)
    requires j <= |steps| && b in At(steps, j).contracts && At(steps, j).contracts[b].Issuers?
    requires IndexedActive(At(steps, j).contracts[b].issuers, a)
    ensures OneActiveHolder(At(steps, j).contracts[b].issuers, a)
  {
    IssuerLaws.IndexAndRecordsAreInverse(steps, j, b);
    var s := At(steps, j).contracts[b].issuers;
    assert IssuerLaws.Holds(s, s.index[a], a);
  }

  lemma RegistrationIsLegitimate(steps: seq<Step>, j: nat, p: Address, id: Hash)
    requires RegistersProof(steps, j, p, id)
    ensures p in At(steps, j).contracts && At(steps, j).contracts[p].Proofs?
    ensures p in At(steps, j + 1).contracts && At(steps, j + 1).contracts[p].Proofs?
    ensures
      var s' := At(steps, j + 1).contracts[p].proofs;
      && id in s'.proofs
      && s'.proofs[id].status.Active? && s'.proofs[id].revokedAt == 0
      && Legitimate(At(steps, j), steps[j], s', s'.proofs[id])
  {
    var w, st := At(steps, j), steps[j];
    RegistrationIsGated(w, st);
    GateMeansOneActiveHolder(steps, j, w.contracts[p].proofs.issuerRegistry.value, st.call.proofs.issuer);
  }

  /** A registration stores its arguments, each in its own field, as an Active proof created at the current time, and
      leaves every other proof of the registry as it was. */
  lemma RegistrationStoresItsArguments(steps: seq<Step>, j: nat, p: Address, id: Hash)
    requires RegistersProof(steps, j, p, id)
    ensures p in At(steps, j).contracts && At(steps, j).contracts[p].Proofs?
    ensures p in At(steps, j + 1).contracts && At(steps, j + 1).contracts[p].Proofs?
    ensures
      var before, after := At(steps, j).contracts[p].proofs.proofs, At(steps, j + 1).contracts[p].proofs.proofs;
      && id !in before && after.Keys == before.Keys + {id}
      && Carries(after[id], steps[j].call.proofs)
      && after[id].createdAt == At(steps, j).now && after[id].status.Active? && after[id].revokedAt == 0
      && forall other | other in before :: after[other] == before[other]
  {
    RegistrationIsGated(At(steps, j), steps[j]);
  }

  lemma FindOrigin(steps: seq<Step>, k: nat, p: Address, id: Hash) returns (j: nat)
    requires k <= |steps| && p in At(steps, k).contracts && At(steps, k).contracts[p].Proofs?
    requires id in At(steps, k).contracts[p].proofs.proofs
    ensures j < k && RegistersProof(steps, j, p, id)
    decreases k
  {
    var w, st := At(steps, k - 1), steps[k - 1];
    EachContractMovesAlone(w, st, p);
    if p in w.contracts && id in w.contracts[p].proofs.proofs {
      j := FindOrigin(steps, k - 1, p, id);
    } else {
      j := k - 1;
      if IsRegistration(st) {
        RegistrationIsGated(w, st);
      }
    }
  }

  lemma {:induction false} RegisteredProofStays(steps: seq<Step>, j: nat, k: nat, p: Address, id: Hash)
    requires j < k <= |steps| && RegistersProof(steps, j, p, id)
    ensures p in At(steps, k).contracts && At(steps, k).contracts[p].Proofs?
    ensures id in At(steps, k).contracts[p].proofs.proofs
  {
    RegistrationStoresItsArguments(steps, j, p, id);
    RegistryKeepsItsProofs(steps, j + 1, k, p);
  }

  lemma StoredIdIsRefused(w: World, st: Step, p: Address, id: Hash)
    requires p in w.contracts && w.contracts[p].Proofs? && id in w.contracts[p].proofs.proofs
    requires IsRegistration(st) && st.target == p && st.call.proofs.id == id
    ensures !Succeeds(w, st)
  {
    RegistrationIsGated(w, st);
  }

  lemma NoSecondRegistration(steps: seq<Step>, j: nat, j': nat, p: Address, id: Hash)
    requires j < j' && RegistersProof(steps, j, p, id)
    ensures !RegistersProof(steps, j', p, id)
  {
    if j' < |steps| && IsRegistration(steps[j']) && steps[j'].target == p && steps[j'].call.proofs.id == id {
      RegisteredProofStays(steps, j, j', p, id);
      StoredIdIsRefused(At(steps, j'), steps[j'], p, id);
    }
  }

  /** Every stored proof was written by exactly one earlier successful `register_proof`, and that one was legitimate
      when it was made. */
  lemma {:induction false} EveryProofHasOneLegitimateOrigin(steps: seq<Step>, k: nat, p: Address, id: Hash)
    requires k <= |steps| && p in At(steps, k).contracts && At(steps, k).contracts[p].Proofs?
    requires id in At(steps, k).contracts[p].proofs.proofs
    ensures
      var s := At(steps, k).contracts[p].proofs;
      exists j: nat ::
        && j < k && RegistersProof(steps, j, p, id)
        && Legitimate(At(steps, j), steps[j], s, s.proofs[id])
        && forall j': nat | RegistersProof(steps, j', p, id) :: j' == j
  {
    var s := At(steps, k).contracts[p].proofs;
    var j := FindOrigin(steps, k, p, id);
    RegistrationIsLegitimate(steps, j, p, id);
    RegistryIsWellKept(steps, j + 1, p);
    RegistryKeepsItsProofs(steps, j + 1, k, p);
    assert Legitimate(At(steps, j), steps[j], s, s.proofs[id]);
    forall j': nat | RegistersProof(steps, j', p, id) ensures j' == j {
      if j < j' {
        NoSecondRegistration(steps, j, j', p, id);
      } else if j' < j {
        NoSecondRegistration(steps, j', j, p, id);
      }
    }
  }

  // ----- when a proof is valid -----

  predicate IsRevocation(st: Step, p: Address, id: Hash) {
    && st.Invoke? && st.target == p && st.call.ToProofs?
    && (st.call.proofs == PR.RevokeProof(id) || st.call.proofs == PR.AdminRevokeProof(id))
  }

  predicate RevokesProof(steps: seq<Step>, j: nat, p: Address, id: Hash) {
    j < |steps| && IsRevocation(steps[j], p, id) && Succeeds(At(steps, j), steps[j])
  }

  /** Some step after `i` and before `k` revoked the proof. */
  ghost predicate RevokedBetween(steps: seq<Step>, i: nat, k: nat, p: Address, id: Hash) {
    exists j: nat :: i < j < k && RevokesProof(steps, j, p, id)
  }

  lemma StatusMovesOnlyByRevocation(w: World, st: Step, p: Address, id: Hash)
    requires p in w.contracts && w.contracts[p].Proofs? && id in w.contracts[p].proofs.proofs
    ensures p in Apply(w, st).contracts && Apply(w, st).contracts[p].Proofs?
    ensures id in Apply(w, st).contracts[p].proofs.proofs
    ensures PR.RevokedIn(Apply(w, st).contracts[p].proofs, id)
            <==> PR.RevokedIn(w.contracts[p].proofs, id) || (IsRevocation(st, p, id) && Succeeds(w, st))
  {
    EachContractMovesAlone(w, st, p);
    if IsRegistration(st) {
      RegistrationIsGated(w, st);
    }
  }

  lemma OneMoreStep(steps: seq<Step>, i: nat, k: nat, p: Address, id: Hash)
    requires i < k
    ensures RevokedBetween(steps, i, k + 1, p, id) <==> RevokedBetween(steps, i, k, p, id) || RevokesProof(steps, k, p, id)
  {
  }

  lemma {:induction false} RevokedMeansRevocation(steps: seq<Step>, i: nat, k: nat, p: Address, id: Hash)
    requires i < k <= |steps| && RegistersProof(steps, i, p, id)
    ensures p in At(steps, k).contracts && At(steps, k).contracts[p].Proofs?
    ensures id in At(steps, k).contracts[p].proofs.proofs
    ensures PR.RevokedIn(At(steps, k).contracts[p].proofs, id) <==> RevokedBetween(steps, i, k, p, id)
    decreases k
  {
    if k == i + 1 {
      RegistrationIsLegitimate(steps, i, p, id);
    } else {
      RevokedMeansRevocation(steps, i, k - 1, p, id);
      OneMoreStep(steps, i, k - 1, p, id);
      var w, st := At(steps, k - 1), steps[k - 1];
      StatusMovesOnlyByRevocation(w, st, p, id);
      assert At(steps, k) == Apply(w, st);
      assert RevokesProof(steps, k - 1, p, id) == (IsRevocation(st, p, id) && Succeeds(w, st));
    }
  }

  ghost predicate ValidIn(w: World, p: Address, id: Hash) {
    p in w.contracts && w.contracts[p].Proofs? && PR.ValidAt(w.contracts[p].proofs, id, w.now)
  }

  /** After its registration a proof is valid exactly until its first revocation or the end of its term, whichever
      comes first, whatever else happens on the ledger. */
  lemma {:induction false} ValidityIsDecidedByTermAndRevocation(steps: seq<Step>, i: nat, k: nat, p: Address, id: Hash)
    requires i < k <= |steps| && RegistersProof(steps, i, p, id)
    ensures ValidIn(At(steps, k), p, id) <==>
      && At(steps, k).now <= steps[i].call.proofs.expiresAt
      && !RevokedBetween(steps, i, k, p, id)
  {
    RegistrationIsLegitimate(steps, i, p, id);
    RegistryKeepsItsProofs(steps, i + 1, k, p);
    RevokedMeansRevocation(steps, i, k, p, id);
  }

  /** A proof is valid on one unbroken stretch of the run, starting at its registration. */
  lemma ValidityIsOneStretch(steps: seq<Step>, i: nat, k: nat, m: nat, p: Address, id: Hash)
    requires i < k <= m <= |steps| && RegistersProof(steps, i, p, id)
    ensures ValidIn(At(steps, i + 1), p, id)
    ensures ValidIn(At(steps, m), p, id) ==> ValidIn(At(steps, k), p, id)
  {
    RegistrationIsLegitimate(steps, i, p, id);
    ValidityIsDecidedByTermAndRevocation(steps, i, k, p, id);
    ValidityIsDecidedByTermAndRevocation(steps, i, m, p, id);
    ClockNeverRunsBack(steps, k, m);
  }

  // ----- who may revoke a proof -----

  predicate Accepts(w: World, p: Address, c: PR.Call, auth: set<Address>) {
    Attempt(w, p, ToProofs(c), auth).reply.Ok?
  }

  lemma RevocationIsGated(w: World, p: Address, id: Hash, auth: set<Address>)
    requires p in w.contracts && w.contracts[p].Proofs? && id in w.contracts[p].proofs.proofs
    requires w.contracts[p].proofs.core.admin.Some?
    ensures
      var s := w.contracts[p].proofs;
      && (Accepts(w, p, PR.RevokeProof(id), auth) <==> !PR.RevokedIn(s, id) && s.proofs[id].issuer in auth)
      && (Accepts(w, p, PR.AdminRevokeProof(id), auth) <==> !PR.RevokedIn(s, id) && s.core.admin.value in auth)
  {
  }

  /** For the whole life of a proof the two addresses able to revoke it are the issuer named at registration and the
      administrator the registry had then. */
  lemma {:induction false} RevokersNeverChange(steps: seq<Step>, i: nat, k: nat, p: Address, id: Hash, auth: set<Address>)
    requires i < k <= |steps| && RegistersProof(steps, i, p, id)
    ensures p in At(steps, i).contracts && CoreOf(At(steps, i).contracts[p]).admin.Some?
    ensures
      var open := !RevokedBetween(steps, i, k, p, id);
      && (Accepts(At(steps, k), p, PR.RevokeProof(id), auth) <==> open && steps[i].call.proofs.issuer in auth)
      && (Accepts(At(steps, k), p, PR.AdminRevokeProof(id), auth)
          <==> open && CoreOf(At(steps, i).contracts[p]).admin.value in auth)
  {
    RegistrationIsLegitimate(steps, i, p, id);
    RegistryIsWellKept(steps, i, p);
    RegistrationIsGated(At(steps, i), steps[i]);
    RegistryKeepsItsProofs(steps, i, k, p);
    RegistryKeepsItsProofs(steps, i + 1, k, p);
    RevokedMeansRevocation(steps, i, k, p, id);
    RevocationIsGated(At(steps, k), p, id, auth);
  }
}
