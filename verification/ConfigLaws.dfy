/** What holds of every protocol config in every run: the mutation counter counts, and when it is spent the
    configuration is frozen. */
module ConfigLaws {
  import opened Shared
  import opened Ledger
  import PC = ProtocolConfig

  predicate MutatesConfig(steps: seq<Step>, j: nat, b: Address) {
    && j < |steps| && steps[j].Invoke? && steps[j].target == b && steps[j].call.ToConfig?
    && PC.IsMutation(steps[j].call.config) && Succeeds(At(steps, j), steps[j])
  }

  /** How many of the first `k` steps changed the admin, the pause flag or a schema approval of config `b`. */
  function Mutations(steps: seq<Step>, k: nat, b: Address): nat
    requires k <= |steps|
  {
    if k == 0 then 0 else Mutations(steps, k - 1, b) + if MutatesConfig(steps, k - 1, b) then 1 else 0
  }

  lemma EveryCallCounts(s: PC.State, env: Env, c: PC.Call)
    requires PC.Exec(s, env, c).reply.Ok?
    requires s.core.admin.None? ==> s.configVersion == 0
    ensures
      var s' := PC.Exec(s, env, c).state;
      && s'.configVersion == (if c.Initialize? || PC.IsMutation(c) then s.configVersion + 1 else s.configVersion)
      && (s'.core.admin.Some? <==> s.core.admin.Some? || c.Initialize?)
      && (c.Initialize? ==> s.core.admin.None?)
      && (PC.IsMutation(c) ==> s.core.admin.Some?)
  {
  }

  /** ConfigVersion is 0 before initialization and afterwards 1 plus the number of successful mutations. */
  lemma {:induction false} CounterCountsMutations(steps: seq<Step>, k: nat, b: Address)
    requires k <= |steps|
    ensures b !in At(steps, k).contracts ==> Mutations(steps, k, b) == 0
    ensures b in At(steps, k).contracts && At(steps, k).contracts[b].Config? ==>
      var s := At(steps, k).contracts[b].config;
      s.configVersion == (if s.core.admin.Some? then 1 + Mutations(steps, k, b) else 0)
      && (s.core.admin.None? ==> Mutations(steps, k, b) == 0)
  {
    if k > 0 {
      CounterCountsMutations(steps, k - 1, b);
      var w, st := At(steps, k - 1), steps[k - 1];
      EachContractMovesAlone(w, st, b);
      if b in w.contracts && w.contracts[b].Config? {
        var l := CallOn(w, st, b);
        if l.Some? {
          EveryCallCounts(w.contracts[b].config, l.value.env, l.value.call.config);
        }
      }
    }
  }

  lemma SpentCounterRefuses(s: PC.State, env: Env, c: PC.Call)
    requires PC.Exec(s, env, c).reply.Ok? && s.configVersion == U32_MAX && s.core.admin.Some?
    ensures
      var s' := PC.Exec(s, env, c).state;
      && s'.core.admin == s.core.admin && s'.paused == s.paused && s'.schemas == s.schemas
      && s'.configVersion == U32_MAX
  {
  }

  /** The settings agree and the counter is spent. */
  predicate FrozenAt(s: PC.State, s': PC.State) {
    && s'.core.admin == s.core.admin && s'.paused == s.paused && s'.schemas == s.schemas
    && s'.configVersion == U32_MAX
  }

  lemma SpentCounterStep(w: World, st: Step, b: Address, s: PC.State)
    requires b in w.contracts && w.contracts[b].Config? && FrozenAt(s, w.contracts[b].config) && s.core.admin.Some?
    ensures
      var w' := Apply(w, st);
      b in w'.contracts && w'.contracts[b].Config? && FrozenAt(s, w'.contracts[b].config)
  {
    EachContractMovesAlone(w, st, b);
    var l := CallOn(w, st, b);
    if l.Some? {
      SpentCounterRefuses(w.contracts[b].config, l.value.env, l.value.call.config);
    }
  }

  /** Once the counter stands at the maximum, the admin, the pause flag and every schema approval stay as they are in
      every continuation of the run. */
  lemma {:induction false} SpentCounterFreezesConfig(steps: seq<Step>, i: nat, k: nat, b: Address)
    requires i <= k <= |steps| && b in At(steps, i).contracts && At(steps, i).contracts[b].Config?
    requires At(steps, i).contracts[b].config.configVersion == U32_MAX
    ensures b in At(steps, k).contracts && At(steps, k).contracts[b].Config?
    ensures FrozenAt(At(steps, i).contracts[b].config, At(steps, k).contracts[b].config)
    decreases k
  {
    if i < k {
      SpentCounterFreezesConfig(steps, i, k - 1, b);
      CounterCountsMutations(steps, i, b);
      SpentCounterStep(At(steps, k - 1), steps[k - 1], b, At(steps, i).contracts[b].config);
    }
  }
}
