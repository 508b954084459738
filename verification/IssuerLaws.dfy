/** What holds of every issuer registry in every run. */
module IssuerLaws {
  import opened Shared
  import opened Ledger
  import IR = IssuerRegistry

  // ----- the index and the records are inverse to each other -----

  /** Every record is indexed under the address it holds, and every index entry leads to a record holding it. */
  ghost predicate Mirror(issuers: map<Hash, IssuerRecord>, index: map<Address, Hash>) {
    && (forall id | id in issuers :: issuers[id].id == id && issuers[id].address in index && index[issuers[id].address] == id)
    && (forall a | a in index :: index[a] in issuers && issuers[index[a]].address == a)
  }

  ghost predicate Inverse(s: IR.State) {
    Mirror(s.issuers, s.index)
  }

  lemma EveryCallKeepsInverse(s: IR.State, env: Env, c: IR.Call)
    requires Inverse(s)
    ensures Inverse(IR.Exec(s, env, c).state)
  {
    match c
    case RegisterIssuer(id, a, m) => RegistrationKeepsInverse(s, env, id, a, m);
    case RotateIssuerAddress(id, a) => RotationKeepsInverse(s, env, id, a);
    case UpdateIssuer(id, m) =>
      if id in s.issuers {
        RewriteKeepsInverse(s, env, id, s.issuers[id].(metadata := m, updatedAt := env.now));
      }
    case SetStatus(id, st) =>
      if id in s.issuers {
        RewriteKeepsInverse(s, env, id, s.issuers[id].(status := st, updatedAt := env.now));
      }
    case _ =>
  }

  /** Overwriting a record without changing whose it is or which address it holds. */
  lemma RewriteKeepsInverse(s: IR.State, env: Env, id: Hash, r: IssuerRecord)
    requires Inverse(s) && id in s.issuers && r.id == id && r.address == s.issuers[id].address
    ensures Inverse(IR.Stored(s, env, id, r))
  {
  }

  lemma RegistrationKeepsInverse(s: IR.State, env: Env, id: Hash, a: Address, m: Hash)
    requires Inverse(s)
    ensures Inverse(IR.Registered(s, env, id, a, m).state)
  {
  }

  lemma RotationKeepsInverse(s: IR.State, env: Env, id: Hash, a: Address)
    requires Inverse(s)
    ensures Inverse(IR.Rotated(s, env, id, a).state)
  {
  }

  lemma {:induction false} IndexAndRecordsAreInverse(steps: seq<Step>, k: nat, b: Address)
    requires k <= |steps| && b in At(steps, k).contracts && At(steps, k).contracts[b].Issuers?
    ensures Inverse(At(steps, k).contracts[b].issuers)
    decreases k
  {
    if k > 0 {
      var w := At(steps, k - 1);
      EachContractMovesAlone(w, steps[k - 1], b);
      if b in w.contracts {
        IndexAndRecordsAreInverse(steps, k - 1, b);
        var l := CallOn(w, steps[k - 1], b);
        if l.Some? {
          EveryCallKeepsInverse(w.contracts[b].issuers, l.value.env, l.value.call.issuers);
        }
      }
    }
  }

  predicate Holds(s: IR.State, id: Hash, a: Address) {
    id in s.issuers && s.issuers[id].address == a
  }

  /** The specification of `is_active_address`: scan all records. */
  ghost predicate SomeActiveHolder(s: IR.State, a: Address) {
    exists id :: Holds(s, id, a) && s.issuers[id].status.Active?
  }

  /** The indexed lookups agree with a full scan of the records, an address has at most one holder, and the
      `IssuerNotFound` branch of `get_issuer_by_address` is dead. */
  lemma {:induction false} LookupsEqualScans(steps: seq<Step>, k: nat, b: Address, env: Env, a: Address)
    requires k <= |steps| && b in At(steps, k).contracts && At(steps, k).contracts[b].Issuers?
    ensures
      var s := At(steps, k).contracts[b].issuers;
      && IR.Exec(s, env, IR.IsActiveAddress(a)).reply == Ok(Flag(SomeActiveHolder(s, a)))
      && (forall id, id' :: Holds(s, id, a) && Holds(s, id', a) ==> id == id')
      && (forall r :: IR.Exec(s, env, IR.GetIssuerByAddress(a)).reply == Ok(Issuer(r))
                      <==> exists id :: Holds(s, id, a) && r == s.issuers[id])
      && IR.Exec(s, env, IR.GetIssuerByAddress(a)).reply != Err(IssuerNotFound)
  {
    IndexAndRecordsAreInverse(steps, k, b);
    var s := At(steps, k).contracts[b].issuers;
    if a in s.index {
      assert Holds(s, s.index[a], a);
    }
  }

  // ----- revocation is terminal and burns the address -----

  /** Issuer `id` is revoked and its record agrees with `was` in everything but `updatedAt`. */
  predicate Frozen(s: IR.State, id: Hash, was: IssuerRecord) {
    && id in s.issuers
    && s.issuers[id].status.Revoked?
    && s.issuers[id] == was.(updatedAt := s.issuers[id].updatedAt)
    && was.address in s.index && s.index[was.address] == id
  }

  lemma EveryCallKeepsFrozen(s: IR.State, env: Env, c: IR.Call, id: Hash, was: IssuerRecord)
    requires Inverse(s) && Frozen(s, id, was)
    ensures Frozen(IR.Exec(s, env, c).state, id, was)
  {
    match c
    case RotateIssuerAddress(other, a) => RotationKeepsFrozen(s, env, other, a, id, was);
    case RegisterIssuer(other, a, m) => RegistrationKeepsFrozen(s, env, other, a, m, id, was);
    case _ =>
  }

  lemma RegistrationKeepsFrozen(s: IR.State, env: Env, other: Hash, a: Address, m: Hash, id: Hash, was: IssuerRecord)
    requires Frozen(s, id, was)
    ensures Frozen(IR.Registered(s, env, other, a, m).state, id, was)
  {
  }

  lemma RotationKeepsFrozen(s: IR.State, env: Env, other: Hash, a: Address, id: Hash, was: IssuerRecord)
    requires Inverse(s) && Frozen(s, id, was)
    ensures Frozen(IR.Rotated(s, env, other, a).state, id, was)
  {
  }

  lemma {:induction false} RevocationIsTerminal(steps: seq<Step>, i: nat, k: nat, b: Address, id: Hash)
    requires i <= k <= |steps| && b in At(steps, i).contracts && At(steps, i).contracts[b].Issuers?
    requires id in At(steps, i).contracts[b].issuers.issuers
    requires At(steps, i).contracts[b].issuers.issuers[id].status.Revoked?
    ensures b in At(steps, k).contracts && At(steps, k).contracts[b].Issuers?
    ensures Frozen(At(steps, k).contracts[b].issuers, id, At(steps, i).contracts[b].issuers.issuers[id])
    decreases k
  {
    if i == k {
      IndexAndRecordsAreInverse(steps, i, b);
    } else {
      RevocationIsTerminal(steps, i, k - 1, b, id);
      var w := At(steps, k - 1);
      EachContractMovesAlone(w, steps[k - 1], b);
      var l := CallOn(w, steps[k - 1], b);
      if l.Some? {
        IndexAndRecordsAreInverse(steps, k - 1, b);
        EveryCallKeepsFrozen(w.contracts[b].issuers, l.value.env, l.value.call.issuers, id,
                             At(steps, i).contracts[b].issuers.issuers[id]);
      }
    }
  }

  /** From the moment an issuer is revoked, no proof registry that refers to that issuer registry ever accepts a
      registration in the name of the address the issuer held. */
  lemma {:induction false} RevokedAddressIsBarredForever(steps: seq<Step>, i: nat, k: nat, b: Address, id: Hash, p: Address)
    requires i <= k < |steps| && b in At(steps, i).contracts && At(steps, i).contracts[b].Issuers?
    requires id in At(steps, i).contracts[b].issuers.issuers
    requires At(steps, i).contracts[b].issuers.issuers[id].status.Revoked?
    requires p in At(steps, k).contracts && At(steps, k).contracts[p].Proofs?
    requires At(steps, k).contracts[p].proofs.issuerRegistry == Some(b)
    requires IsRegistration(steps[k]) && steps[k].target == p
    requires steps[k].call.proofs.issuer == At(steps, i).contracts[b].issuers.issuers[id].address
    ensures !Succeeds(At(steps, k), steps[k])
  {
    RegistrationIsGated(At(steps, k), steps[k]);
    RevocationIsTerminal(steps, i, k, b, id);
  }
}
