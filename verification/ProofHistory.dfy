/** What a proof registry answers, at any point of any run, told from the steps that were taken and not from its state. */
module ProofHistory {
  import opened Shared
  import opened Ledger
  import opened ProofLaws
  import PR = ProofRegistry

  predicate IsRegistry(w: World, p: Address) {
    p in w.contracts && w.contracts[p].Proofs?
  }

  function ProofsOf(w: World, p: Address): map<Hash, ProofRecord>
    requires IsRegistry(w, p)
  {
    w.contracts[p].proofs.proofs
  }

  // ----- revocation -----

  /** A revocation marks its proof as revoked at the current time, and leaves everything else as it was. */
  lemma RevocationIsRecorded(steps: seq<Step>, j: nat, p: Address, id: Hash)
    requires RevokesProof(steps, j, p, id)
    ensures IsRegistry(At(steps, j), p) && IsRegistry(At(steps, j + 1), p)
    ensures
      var before, after := ProofsOf(At(steps, j), p), ProofsOf(At(steps, j + 1), p);
      && id in before && before[id].status.Active? && after.Keys == before.Keys
      && after[id].status.Revoked? && after[id].revokedAt == At(steps, j).now
      && after[id] == before[id].(status := after[id].status, revokedAt := after[id].revokedAt)
      && forall other | other in before && other != id :: after[other] == before[other]
  {
    EachContractMovesAlone(At(steps, j), steps[j], p);
  }

  /** What a stored proof says is what happened: the arguments and the time of its registration, and the status and
      time of its revocation if there was one. */
  ghost predicate TellsItsStory(steps: seq<Step>, i: nat, k: nat, p: Address, id: Hash, r: ProofRecord)
    requires i < |steps| && k <= |steps| && IsRegistration(steps[i])
  {
    && Carries(r, steps[i].call.proofs) && r.createdAt == At(steps, i).now
    && (r.status.Revoked? <==> RevokedBetween(steps, i, k, p, id))
    && (r.status.Active? ==> r.revokedAt == 0)
    && (forall j: nat | i < j < k && RevokesProof(steps, j, p, id) :: r.revokedAt == At(steps, j).now)
  }

  lemma {:induction false} RevocationTimeStays(steps: seq<Step>, j: nat, k: nat, p: Address, id: Hash)
    requires j < k <= |steps| && RevokesProof(steps, j, p, id)
    ensures IsRegistry(At(steps, k), p) && id in ProofsOf(At(steps, k), p)
    ensures ProofsOf(At(steps, k), p)[id].revokedAt == At(steps, j).now
  {
    RevocationIsRecorded(steps, j, p, id);
    RegistryKeepsItsProofs(steps, j + 1, k, p);
  }

  lemma {:induction false} StoredProofTellsItsStory(steps: seq<Step>, i: nat, k: nat, p: Address, id: Hash)
    requires i < k <= |steps| && RegistersProof(steps, i, p, id)
    ensures IsRegistry(At(steps, k), p) && id in ProofsOf(At(steps, k), p)
    ensures TellsItsStory(steps, i, k, p, id, ProofsOf(At(steps, k), p)[id])
  {
    RegistrationStoresItsArguments(steps, i, p, id);
    RegistryKeepsItsProofs(steps, i + 1, k, p);
    RevokedMeansRevocation(steps, i, k, p, id);
    RegistryIsWellKept(steps, k, p);
    forall j: nat | i < j < k && RevokesProof(steps, j, p, id)
      ensures ProofsOf(At(steps, k), p)[id].revokedAt == At(steps, j).now
    {
      RevocationTimeStays(steps, j, k, p, id);
    }
  }

  // ----- answers -----

  function Answer(w: World, p: Address, c: PR.Call, auth: set<Address>): Reply {
    Attempt(w, p, ToProofs(c), auth).reply
  }

  lemma StoredProofAnswers(w: World, p: Address, id: Hash, auth: set<Address>)
    requires IsRegistry(w, p) && id in ProofsOf(w, p)
    ensures
      var r := ProofsOf(w, p)[id];
      && Answer(w, p, PR.GetProof(id), auth) == Ok(Proof(r))
      && Answer(w, p, PR.IsValidProof(id), auth) == Ok(Flag(r.status.Active? && w.now <= r.expiresAt))
      && Answer(w, p, PR.IsRevoked(id), auth) == Ok(Flag(r.status.Revoked?))
  {
  }

  /** For a proof registered at step `i`, asked at any later point and by anybody: `get_proof` tells its story,
      `is_valid_proof` answers true exactly until the end of its term or its first revocation, and `is_revoked` answers
      true exactly after a revocation. */
  lemma {:induction false} RegisteredProofAnswers(steps: seq<Step>, i: nat, k: nat, p: Address, id: Hash, auth: set<Address>)
    requires i < k <= |steps| && RegistersProof(steps, i, p, id)
    ensures
      var w, revoked := At(steps, k), RevokedBetween(steps, i, k, p, id);
      && Answer(w, p, PR.IsValidProof(id), auth) == Ok(Flag(w.now <= steps[i].call.proofs.expiresAt && !revoked))
      && Answer(w, p, PR.IsRevoked(id), auth) == Ok(Flag(revoked))
      && exists r :: Answer(w, p, PR.GetProof(id), auth) == Ok(Proof(r)) && TellsItsStory(steps, i, k, p, id, r)
  {
    StoredProofTellsItsStory(steps, i, k, p, id);
    StoredProofAnswers(At(steps, k), p, id, auth);
  }

  ghost predicate NeverRegistered(steps: seq<Step>, k: nat, p: Address, id: Hash) {
    forall j: nat | j < k :: !RegistersProof(steps, j, p, id)
  }

  /** For an id that was never registered: not found, not valid, not revoked. */
  lemma {:induction false} UnknownProofAnswers(steps: seq<Step>, k: nat, p: Address, id: Hash, auth: set<Address>)
    requires k <= |steps| && IsRegistry(At(steps, k), p) && NeverRegistered(steps, k, p, id)
    ensures
      var w := At(steps, k);
      && Answer(w, p, PR.GetProof(id), auth) == Err(ProofNotFound)
      && Answer(w, p, PR.IsValidProof(id), auth) == Ok(Flag(false))
      && Answer(w, p, PR.IsRevoked(id), auth) == Ok(Flag(false))
  {
    if id in ProofsOf(At(steps, k), p) {
      var j := FindOrigin(steps, k, p, id);
      assert false;
    }
  }
}
