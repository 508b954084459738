/** What upgrade governance guarantees over whole runs, for every contract of every kind. */
module UpgradeLaws {
  import opened Shared
  import opened Ledger
  import Upgrade
  import PC = ProtocolConfig
  import IR = IssuerRegistry
  import PR = ProofRegistry

  function GovernanceIn(call: Call): Option<Upgrade.Call> {
    match call
    case ToConfig(c) => if c.Govern? then Some(c.call) else None
    case ToIssuers(c) => if c.Govern? then Some(c.call) else None
    case ToProofs(c) => if c.Govern? then Some(c.call) else None
  }

  /** Step `st` successfully makes governance call `g` on contract `b`. */
  predicate Makes(w: World, st: Step, b: Address, g: Upgrade.Call) {
    st.Invoke? && st.target == b && GovernanceIn(st.call) == Some(g) && Succeeds(w, st)
  }

  /** Step `st` successfully approves, revokes or applies hash `h` on contract `b`. */
  predicate Touches(w: World, st: Step, b: Address, h: Hash) {
    st.Invoke? && st.target == b && GovernanceIn(st.call).Some? && GovernanceIn(st.call).value.hash == h && Succeeds(w, st)
  }

  predicate MakesAt(steps: seq<Step>, j: nat, b: Address, g: Upgrade.Call) {
    j < |steps| && Makes(At(steps, j), steps[j], b, g)
  }

  ghost predicate UntouchedBetween(steps: seq<Step>, j: nat, k: nat, b: Address, h: Hash) {
    forall m: nat | j < m < k && m < |steps| :: !Touches(At(steps, m), steps[m], b, h)
  }

  predicate Governed(c: Upgrade.Core) {
    if c.admin.None? then c.version == 0 && c.allowed == map[] else c.version >= 1
  }

  /** How a contract's core moves under a call: by the governance call it carries, or else by initialization or
      admin rotation only. */
  predicate CoreStep(c: Upgrade.Core, c': Upgrade.Core, env: Env, g: Option<Upgrade.Call>) {
    if g.Some? then
      Upgrade.Exec(c, env, g.value) == Result(c', Ok(Unit))
    else
      && c'.allowed == c.allowed
      && (if c.admin.Some? then c'.admin.Some? && c'.version == c.version
          else (c'.admin.None? && c'.version == c.version) || (c'.admin.Some? && c'.version == 1))
  }

  lemma ConfigCoreSteps(s: PC.State, env: Env, c: PC.Call)
    requires PC.Exec(s, env, c).reply.Ok?
    ensures CoreStep(s.core, PC.Exec(s, env, c).state.core, env, GovernanceIn(ToConfig(c)))
  {
  }

  lemma IssuerCoreSteps(s: IR.State, env: Env, c: IR.Call)
    requires IR.Exec(s, env, c).reply.Ok?
    ensures CoreStep(s.core, IR.Exec(s, env, c).state.core, env, GovernanceIn(ToIssuers(c)))
  {
  }

  lemma ProofCoreSteps(s: PR.State, env: Env, c: PR.Call)
    requires !c.RegisterProof? && PR.Exec(s, env, c).reply.Ok?
    ensures CoreStep(s.core, PR.Exec(s, env, c).state.core, env, GovernanceIn(ToProofs(c)))
  {
  }

  /** The governance call, if any, that a step successfully makes on contract `b`. */
  function GovernanceOn(w: World, st: Step, b: Address): Option<Upgrade.Call> {
    if Succeeds(w, st) && st.target == b then GovernanceIn(st.call) else None
  }

  lemma CoresStep(w: World, st: Step, b: Address)
    requires b in w.contracts
    ensures b in Apply(w, st).contracts
    ensures CoreStep(CoreOf(w.contracts[b]), CoreOf(Apply(w, st).contracts[b]),
                     EnvAt(w, b, if st.Invoke? then st.auth else {}), GovernanceOn(w, st, b))
  {
    EachContractMovesAlone(w, st, b);
    var l := CallOn(w, st, b);
    if l.Some? {
      match w.contracts[b]
      case Config(s) => ConfigCoreSteps(s, l.value.env, l.value.call.config);
      case Issuers(s) => IssuerCoreSteps(s, l.value.env, l.value.call.issuers);
      case Proofs(s) =>
        if IsRegistration(st) {
          RegistrationIsGated(w, st);
        } else {
          ProofCoreSteps(s, l.value.env, l.value.call.proofs);
        }
    }
  }

  /** One step's effect on a contract's governance state. */
  lemma GovernanceMoves(w: World, st: Step, b: Address)
    requires b in w.contracts && Governed(CoreOf(w.contracts[b]))
    ensures b in Apply(w, st).contracts
    ensures
      var c, c', g := CoreOf(w.contracts[b]), CoreOf(Apply(w, st).contracts[b]), GovernanceOn(w, st, b);
      && Governed(c')
      && c.version <= c'.version
      && (c.admin.Some? ==> c'.admin.Some?)
      && if g.Some? then c.admin.Some? && Upgrade.Exec(c, EnvAt(w, b, st.auth), g.value) == Result(c', Ok(Unit))
         else c'.allowed == c.allowed && (c.admin.Some? ==> c'.version == c.version)
  {
    CoresStep(w, st, b);
  }

  lemma ContractsStartUngoverned(w: World, st: Step, b: Address)
    requires b !in w.contracts && b in Apply(w, st).contracts
    ensures CoreOf(Apply(w, st).contracts[b]) == Upgrade.EMPTY_CORE
  {
    EachContractMovesAlone(w, st, b);
  }

  lemma {:induction false} EveryContractIsGoverned(steps: seq<Step>, k: nat, b: Address)
    requires k <= |steps| && b in At(steps, k).contracts
    ensures Governed(CoreOf(At(steps, k).contracts[b]))
    decreases k
  {
    if k > 0 {
      var w, st := At(steps, k - 1), steps[k - 1];
      if b in w.contracts {
        EveryContractIsGoverned(steps, k - 1, b);
        GovernanceMoves(w, st, b);
      } else {
        ContractsStartUngoverned(w, st, b);
      }
    }
  }

  lemma {:induction false} VersionStepsUp(steps: seq<Step>, j: nat, b: Address)
    requires j < |steps| && b in At(steps, j).contracts
    ensures b in At(steps, j + 1).contracts
    ensures CoreOf(At(steps, j).contracts[b]).version <= CoreOf(At(steps, j + 1).contracts[b]).version
  {
    EveryContractIsGoverned(steps, j, b);
    GovernanceMoves(At(steps, j), steps[j], b);
  }

  lemma {:induction false} VersionNeverFalls(steps: seq<Step>, i: nat, k: nat, b: Address)
    requires i <= k <= |steps| && b in At(steps, i).contracts
    ensures b in At(steps, k).contracts
    ensures CoreOf(At(steps, i).contracts[b]).version <= CoreOf(At(steps, k).contracts[b]).version
    decreases k - i
  {
    if i < k {
      VersionStepsUp(steps, i, b);
      VersionNeverFalls(steps, i + 1, k, b);
    }
  }

  // ----- every installed version goes back to one approval -----

  lemma OneStepOfTheAllowlist(w: World, st: Step, b: Address, h: Hash)
    requires b in w.contracts && Governed(CoreOf(w.contracts[b]))
    ensures b in Apply(w, st).contracts
    ensures
      var before, after := CoreOf(w.contracts[b]).allowed, CoreOf(Apply(w, st).contracts[b]).allowed;
      if Touches(w, st, b, h) then h in after ==> Makes(w, st, b, Upgrade.ApproveUpgrade(h, after[h]))
      else (h in after <==> h in before) && (h in before ==> after[h] == before[h])
  {
    GovernanceMoves(w, st, b);
  }

  /** An entry of the allowlist was written by the last step, or was there before and untouched. */
  lemma {:induction false} EntryOneStepBack(steps: seq<Step>, k: nat, b: Address, h: Hash)
    requires 0 < k <= |steps| && b in At(steps, k).contracts && h in CoreOf(At(steps, k).contracts[b]).allowed
    ensures b in At(steps, k - 1).contracts
    ensures
      var w, v := At(steps, k - 1), CoreOf(At(steps, k).contracts[b]).allowed[h];
      || Makes(w, steps[k - 1], b, Upgrade.ApproveUpgrade(h, v))
      || (!Touches(w, steps[k - 1], b, h) && h in CoreOf(w.contracts[b]).allowed && CoreOf(w.contracts[b]).allowed[h] == v)
  {
    var w, st := At(steps, k - 1), steps[k - 1];
    if b !in w.contracts {
      ContractsStartUngoverned(w, st, b);
    }
    EveryContractIsGoverned(steps, k - 1, b);
    OneStepOfTheAllowlist(w, st, b, h);
  }

  lemma {:induction false} UntouchedOneMore(steps: seq<Step>, j: nat, k: nat, b: Address, h: Hash)
    requires 0 < k <= |steps| && UntouchedBetween(steps, j, k - 1, b, h)
    requires !Touches(At(steps, k - 1), steps[k - 1], b, h)
    ensures UntouchedBetween(steps, j, k, b, h)
  {
  }

  /** An allowlist entry was put there by an approval that nothing has replaced, revoked or consumed since. */
  lemma {:induction false} EntryHasApproval(steps: seq<Step>, k: nat, b: Address, h: Hash) returns (j: nat)
    requires k <= |steps| && b in At(steps, k).contracts && h in CoreOf(At(steps, k).contracts[b]).allowed
    ensures j < k && UntouchedBetween(steps, j, k, b, h)
    ensures MakesAt(steps, j, b, Upgrade.ApproveUpgrade(h, CoreOf(At(steps, k).contracts[b]).allowed[h]))
    decreases k
  {
    EntryOneStepBack(steps, k, b, h);
    if Makes(At(steps, k - 1), steps[k - 1], b, Upgrade.ApproveUpgrade(h, CoreOf(At(steps, k).contracts[b]).allowed[h])) {
      j := k - 1;
    } else {
      j := EntryHasApproval(steps, k - 1, b, h);
      UntouchedOneMore(steps, j, k, b, h);
    }
  }

  lemma {:induction false} ApprovalStands(steps: seq<Step>, j: nat, k: nat, b: Address, h: Hash, v: u32)
    requires j < k <= |steps| && MakesAt(steps, j, b, Upgrade.ApproveUpgrade(h, v)) && UntouchedBetween(steps, j, k, b, h)
    ensures b in At(steps, k).contracts
    ensures h in CoreOf(At(steps, k).contracts[b]).allowed && CoreOf(At(steps, k).contracts[b]).allowed[h] == v
    decreases k
  {
    if k == j + 1 {
      EveryContractIsGoverned(steps, j, b);
      GovernanceMoves(At(steps, j), steps[j], b);
    } else {
      ApprovalStands(steps, j, k - 1, b, h, v);
      EveryContractIsGoverned(steps, k - 1, b);
      OneStepOfTheAllowlist(At(steps, k - 1), steps[k - 1], b, h);
    }
  }

  lemma UpgradeInstallsEntry(w: World, st: Step, b: Address, h: Hash)
    requires b in w.contracts && Governed(CoreOf(w.contracts[b])) && Makes(w, st, b, Upgrade.UpgradeContract(h))
    ensures b in Apply(w, st).contracts
    ensures h in CoreOf(w.contracts[b]).allowed
    ensures CoreOf(w.contracts[b]).version < CoreOf(w.contracts[b]).allowed[h] == CoreOf(Apply(w, st).contracts[b]).version
  {
    GovernanceMoves(w, st, b);
  }

  /** Approval step `j` is the one that upgrade step `k` applies. */
  ghost predicate Justifies(steps: seq<Step>, j: nat, k: nat, b: Address, h: Hash, v: u32) {
    && j < k && MakesAt(steps, j, b, Upgrade.ApproveUpgrade(h, v)) && MakesAt(steps, k, b, Upgrade.UpgradeContract(h))
    && UntouchedBetween(steps, j, k, b, h)
  }

  ghost predicate Justified(steps: seq<Step>, k: nat, b: Address, h: Hash, v: u32) {
    exists j: nat :: Justifies(steps, j, k, b, h, v)
  }

  /** A successful upgrade to `h` installs exactly the version named by the latest approval of `h`, which no later
      call has replaced, revoked or consumed, and it always moves the version up. */
  lemma UpgradeAppliesLatestApproval(steps: seq<Step>, k: nat, b: Address, h: Hash)
    requires MakesAt(steps, k, b, Upgrade.UpgradeContract(h))
    ensures b in At(steps, k).contracts && b in At(steps, k + 1).contracts
    ensures CoreOf(At(steps, k).contracts[b]).version < CoreOf(At(steps, k + 1).contracts[b]).version
    ensures Justified(steps, k, b, h, CoreOf(At(steps, k + 1).contracts[b]).version)
  {
    EveryContractIsGoverned(steps, k, b);
    UpgradeInstallsEntry(At(steps, k), steps[k], b, h);
    var j := EntryHasApproval(steps, k, b, h);
    assert Justifies(steps, j, k, b, h, CoreOf(At(steps, k + 1).contracts[b]).version);
  }

  /** Upgrades and approvals match one to one. */
  lemma ApprovalIsSpentOnce(steps: seq<Step>, j: nat, j': nat, k: nat, k': nat, b: Address, h: Hash, v: u32, v': u32)
    requires Justifies(steps, j, k, b, h, v) && Justifies(steps, j', k', b, h, v')
    ensures j == j' <==> k == k'
  {
    assert Touches(At(steps, j), steps[j], b, h) && Touches(At(steps, j'), steps[j'], b, h);
    assert Touches(At(steps, k), steps[k], b, h) && Touches(At(steps, k'), steps[k'], b, h);
  }

  // ----- counting and staleness -----

  predicate IsUpgrade(w: World, st: Step, b: Address) {
    st.Invoke? && st.target == b && GovernanceIn(st.call).Some? && GovernanceIn(st.call).value.UpgradeContract? && Succeeds(w, st)
  }

  function Upgrades(steps: seq<Step>, k: nat, b: Address): nat
    requires k <= |steps|
  {
    if k == 0 then 0 else Upgrades(steps, k - 1, b) + if IsUpgrade(At(steps, k - 1), steps[k - 1], b) then 1 else 0
  }

  /** A run contains at most ContractVersion - 1 upgrades of a contract, and none before it is initialized. */
  lemma {:induction false} UpgradesAreBoundedByVersion(steps: seq<Step>, k: nat, b: Address)
    requires k <= |steps|
    ensures b !in At(steps, k).contracts ==> Upgrades(steps, k, b) == 0
    ensures b in At(steps, k).contracts ==>
      var c := CoreOf(At(steps, k).contracts[b]);
      if c.admin.Some? then Upgrades(steps, k, b) + 1 <= c.version else Upgrades(steps, k, b) == 0
  {
    if k > 0 {
      UpgradesAreBoundedByVersion(steps, k - 1, b);
      var w, st := At(steps, k - 1), steps[k - 1];
      if b in w.contracts {
        EveryContractIsGoverned(steps, k - 1, b);
        GovernanceMoves(w, st, b);
        if IsUpgrade(w, st, b) {
          UpgradeInstallsEntry(w, st, b, GovernanceIn(st.call).value.hash);
        }
      } else if b in Apply(w, st).contracts {
        ContractsStartUngoverned(w, st, b);
      }
    }
  }

  /** An entry at or below the current version is dead: its hash is installed later only after a new approval. */
  lemma {:induction false} StaleEntryNeedsNewApproval(steps: seq<Step>, i: nat, k: nat, b: Address, h: Hash)
    requires i <= k && MakesAt(steps, k, b, Upgrade.UpgradeContract(h)) && b in At(steps, i).contracts
    requires h in CoreOf(At(steps, i).contracts[b]).allowed
    requires CoreOf(At(steps, i).contracts[b]).allowed[h] <= CoreOf(At(steps, i).contracts[b]).version
    ensures exists j: nat, v: u32 :: i <= j < k && MakesAt(steps, j, b, Upgrade.ApproveUpgrade(h, v))
  {
    UpgradeAppliesLatestApproval(steps, k, b, h);
    var v := CoreOf(At(steps, k + 1).contracts[b]).version;
    var j: nat :| Justifies(steps, j, k, b, h, v);
    if j < i {
      ApprovalStands(steps, j, i, b, h, v);
      VersionNeverFalls(steps, i, k, b);
      assert false;
    }
  }
}
