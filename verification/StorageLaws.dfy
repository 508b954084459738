/** Who may change stored values, and what a failing call leaves behind. */
module StorageLaws {
  import opened Shared
  import opened Ledger
  import opened Entries
  import Upgrade
  import PC = ProtocolConfig
  import IR = IssuerRegistry
  import PR = ProofRegistry

  /** A contract's stored values and event log, without the lifetimes of its entries. */
  function Values(i: Instance): Instance {
    match i
    case Config(s) => Config(s.(live := map[]))
    case Issuers(s) => Issuers(s.(issuerLive := map[], indexLive := map[]))
    case Proofs(s) => Proofs(s.(live := map[]))
  }

  // ----- every change is authorised by the right party -----

  /** The party whose consent the call needs, judged in the state before it. */
  predicate Entitled(i: Instance, call: Call, auth: set<Address>) {
    match (i, call)
    case (Config(s), ToConfig(c)) =>
      if c.Initialize? then s.core.admin.None? && c.admin in auth else Upgrade.AdminAuthorized(s.core, auth)
    case (Issuers(s), ToIssuers(c)) =>
      if c.Initialize? then s.core.admin.None? && c.admin in auth else Upgrade.AdminAuthorized(s.core, auth)
    case (Proofs(s), ToProofs(c)) =>
      (match c
       case Initialize(a, _, _) => s.core.admin.None? && a in auth
       case RegisterProof(_, _, issuer, _, _) => issuer in auth
       case RevokeProof(id) => id in s.proofs && s.proofs[id].issuer in auth
       case _ => Upgrade.AdminAuthorized(s.core, auth))
    case _ => false
  }

  lemma ConfigChangeIsEntitled(s: PC.State, env: Env, c: PC.Call)
    requires PC.Exec(s, env, c).reply.Ok?
    requires Values(Config(PC.Exec(s, env, c).state)) != Values(Config(s))
    ensures Entitled(Config(s), ToConfig(c), env.auth)
  {
  }

  lemma IssuerChangeIsEntitled(s: IR.State, env: Env, c: IR.Call)
    requires IR.Exec(s, env, c).reply.Ok?
    requires Values(Issuers(IR.Exec(s, env, c).state)) != Values(Issuers(s))
    ensures Entitled(Issuers(s), ToIssuers(c), env.auth)
  {
  }

  lemma ProofChangeIsEntitled(s: PR.State, env: Env, c: PR.Call)
    requires !c.RegisterProof? && PR.Exec(s, env, c).reply.Ok?
    requires Values(Proofs(PR.Exec(s, env, c).state)) != Values(Proofs(s))
    ensures Entitled(Proofs(s), ToProofs(c), env.auth)
  {
  }

  /** If a step changes a stored value of contract `b`, it is a call to `b` itself with the consent of the party in
      charge of that value at that moment; calls to other contracts never change `b`'s values. */
  lemma EveryChangeIsAuthorised(w: World, st: Step, b: Address)
    requires b in w.contracts
    ensures b in Apply(w, st).contracts
    ensures Values(Apply(w, st).contracts[b]) != Values(w.contracts[b]) ==>
      st.Invoke? && st.target == b && Entitled(w.contracts[b], st.call, st.auth)
  {
    EachContractMovesAlone(w, st, b);
    var l := CallOn(w, st, b);
    if l.Some? && Values(Apply(w, st).contracts[b]) != Values(w.contracts[b]) {
      match w.contracts[b]
      case Config(s) => ConfigChangeIsEntitled(s, l.value.env, l.value.call.config);
      case Issuers(s) => IssuerChangeIsEntitled(s, l.value.env, l.value.call.issuers);
      case Proofs(s) =>
        if IsRegistration(st) {
          RegistrationIsGated(w, st);
        } else {
          ProofChangeIsEntitled(s, l.value.env, l.value.call.proofs);
        }
    }
  }

  // ----- what a registration depends on -----

  function ConfigValues(w: World, a: Option<Address>): Option<Instance> {
    var c := ConfigAt(w, a);
    if c.Some? then Some(Values(Config(c.value))) else None
  }

  function IssuerValues(w: World, a: Option<Address>): Option<Instance> {
    var i := IssuersAt(w, a);
    if i.Some? then Some(Values(Issuers(i.value))) else None
  }

  lemma ReplyIgnoresLifetimes(s: PR.State, c: Option<PC.State>, i: Option<IR.State>, env: Env,
                              s': PR.State, c': Option<PC.State>, i': Option<IR.State>, env': Env, call: PR.Call)
    requires call.RegisterProof? && env' == env.(sequence := env'.sequence) && s' == s.(live := s'.live)
    requires c.Some? == c'.Some? && (c.Some? ==> c'.value == c.value.(live := c'.value.live))
    requires i.Some? == i'.Some?
    requires i.Some? ==> i'.value == i.value.(issuerLive := i'.value.issuerLive, indexLive := i'.value.indexLive)
    ensures PR.Registered(s, c, i, env, call).reply == PR.Registered(s', c', i', env', call).reply
  {
    assert PR.LocalCheck(s, env, call) == PR.LocalCheck(s', env', call);
  }

  /** The reply of `register_proof` is a function of the time and of the values stored in three contracts: the
      registry and the two it was initialized with. No other contract, no lifetime and no ledger number matters. */
  lemma RegistrationReadsThreeContracts(w: World, w': World, st: Step)
    requires IsRegistration(st) && w.now == w'.now
    requires st.target in w.contracts && w.contracts[st.target].Proofs?
    requires st.target in w'.contracts && Values(w.contracts[st.target]) == Values(w'.contracts[st.target])
    requires ConfigValues(w, w.contracts[st.target].proofs.protocolConfig)
          == ConfigValues(w', w.contracts[st.target].proofs.protocolConfig)
    requires IssuerValues(w, w.contracts[st.target].proofs.issuerRegistry)
          == IssuerValues(w', w.contracts[st.target].proofs.issuerRegistry)
    ensures Attempt(w, st.target, st.call, st.auth).reply == Attempt(w', st.target, st.call, st.auth).reply
  {
    var s, s' := w.contracts[st.target].proofs, w'.contracts[st.target].proofs;
    ReplyIgnoresLifetimes(
      s, ConfigAt(w, s.protocolConfig), IssuersAt(w, s.issuerRegistry), EnvAt(w, st.target, st.auth),
      s', ConfigAt(w', s'.protocolConfig), IssuersAt(w', s'.issuerRegistry), EnvAt(w', st.target, st.auth), st.call.proofs);
  }

  // ----- failing calls -----

  lemma ConfigErrorsWriteNothing(s: PC.State, env: Env, c: PC.Call)
    requires PC.Exec(s, env, c).reply.Err?
    ensures PC.Exec(s, env, c).state == s
  {
  }

  lemma IssuerErrorsWriteNothing(s: IR.State, env: Env, c: IR.Call)
    requires IR.Exec(s, env, c).reply.Err?
    ensures Values(Issuers(IR.Exec(s, env, c).state)) == Values(Issuers(s))
  {
  }

  /** Even a host that did not roll back would find every stored value and event as it was after any call that
      returns an error; a registration that fails late may have moved lifetimes in its dependencies, nothing else. */
  lemma ErrorsWriteNothing(w: World, a: Address, call: Call, auth: set<Address>, b: Address)
    requires Attempt(w, a, call, auth).reply.Err? && b in w.contracts
    ensures b in Attempt(w, a, call, auth).state
    ensures Values(Attempt(w, a, call, auth).state[b]) == Values(w.contracts[b])
  {
    match (w.contracts[a], call)
    case (Config(s), ToConfig(c)) => ConfigErrorsWriteNothing(s, EnvAt(w, a, auth), c);
    case (Issuers(s), ToIssuers(c)) => IssuerErrorsWriteNothing(s, EnvAt(w, a, auth), c);
    case (Proofs(s), ToProofs(c)) =>
      if c.RegisterProof? {
        FailedRegistrationWritesNothing(w, a, c, auth, b);
      }
  }

  lemma FailedRegistrationWritesNothing(w: World, a: Address, c: PR.Call, auth: set<Address>, b: Address)
    requires a in w.contracts && w.contracts[a].Proofs? && c.RegisterProof? && b in w.contracts
    requires !RegistrationAt(w, a, w.contracts[a].proofs, c, auth).reply.Ok?
    ensures
      var m := Spread(w, a, w.contracts[a].proofs, RegistrationAt(w, a, w.contracts[a].proofs, c, auth));
      b in m && Values(m[b]) == Values(w.contracts[b])
  {
    var s := w.contracts[a].proofs;
    var g := RegistrationAt(w, a, s, c, auth);
    assert g.proofs == s;
    assert g.config.Some? ==> Values(Config(g.config.value)) == Values(Config(ConfigAt(w, s.protocolConfig).value));
    assert g.issuers.Some? ==> Values(Issuers(g.issuers.value)) == Values(Issuers(IssuersAt(w, s.issuerRegistry).value));
  }

  /** The entries that a call may have read before it returned an error. */
  predicate ReadBeforeError(w: World, a: Address, call: Call, b: Address, e: Entry) {
    a in w.contracts &&
    match (w.contracts[a], call)
    case (Issuers(_), ToIssuers(c)) => b == a && c.GetIssuerByAddress? && e == IndexEntry(c.address)
    case (Proofs(s), ToProofs(c)) =>
      && c.RegisterProof?
      && (|| (s.protocolConfig == Some(b) && e == SchemaEntry(c.schema))
          || (s.issuerRegistry == Some(b) && (e == IndexEntry(c.issuer) || HolderRecord(w, b, c.issuer, e))))
    case _ => false
  }

  /** `e` is the record that the index of registry `b` names for `issuer`. */
  predicate HolderRecord(w: World, b: Address, issuer: Address, e: Entry) {
    var i := IssuersAt(w, Some(b));
    i.Some? && issuer in i.value.index && e == RecordEntry(i.value.index[issuer])
  }

  /** What a registration leaves of the lifetimes in its two dependencies. */
  lemma RegistrationAgesSchema(s: PR.State, c: Option<PC.State>, i: Option<IR.State>, env: Env, call: PR.Call, e: Entry)
    requires call.RegisterProof?
    ensures
      var g := PR.Registered(s, c, i, env, call);
      && g.config.Some? == c.Some? && (!g.reply.Ok? ==> g.proofs == s)
      && (c.Some? && LiveIn(Config(g.config.value), e) != LiveIn(Config(c.value), e) ==> e == SchemaEntry(call.schema))
  {
  }

  lemma RegistrationAgesIssuer(s: PR.State, c: Option<PC.State>, i: Option<IR.State>, env: Env, call: PR.Call, e: Entry)
    requires call.RegisterProof?
    ensures
      var g := PR.Registered(s, c, i, env, call);
      && g.issuers.Some? == i.Some?
      && (i.Some? && LiveIn(Issuers(g.issuers.value), e) != LiveIn(Issuers(i.value), e) ==>
            e == IndexEntry(call.issuer) || (call.issuer in i.value.index && e == RecordEntry(i.value.index[call.issuer])))
  {
  }

  lemma FailedRegistrationAgesWhatItRead(w: World, a: Address, c: PR.Call, auth: set<Address>, b: Address, e: Entry)
    requires a in w.contracts && w.contracts[a].Proofs? && c.RegisterProof? && b in w.contracts
    requires !RegistrationAt(w, a, w.contracts[a].proofs, c, auth).reply.Ok?
    ensures
      var m := Spread(w, a, w.contracts[a].proofs, RegistrationAt(w, a, w.contracts[a].proofs, c, auth));
      b in m && (LiveIn(m[b], e) != LiveIn(w.contracts[b], e) ==> ReadBeforeError(w, a, ToProofs(c), b, e))
  {
    var s := w.contracts[a].proofs;
    var config, issuers, env := ConfigAt(w, s.protocolConfig), IssuersAt(w, s.issuerRegistry), EnvAt(w, a, auth);
    RegistrationAgesSchema(s, config, issuers, env, c, e);
    RegistrationAgesIssuer(s, config, issuers, env, c, e);
  }

  /** Without rollback, a call that returns an error moves no lifetime but those of the entries it has read: the schema
      entry, the index entry of the issuer address and the record behind it for a registration, and the index entry for
      a lookup by address that leads nowhere. */
  lemma ErrorsAgeOnlyWhatWasRead(w: World, a: Address, call: Call, auth: set<Address>, b: Address, e: Entry)
    requires Attempt(w, a, call, auth).reply.Err? && b in w.contracts
    ensures b in Attempt(w, a, call, auth).state
    ensures LiveIn(Attempt(w, a, call, auth).state[b], e) != LiveIn(w.contracts[b], e) ==> ReadBeforeError(w, a, call, b, e)
  {
    match (w.contracts[a], call)
    case (Config(s), ToConfig(c)) => ConfigErrorsWriteNothing(s, EnvAt(w, a, auth), c);
    case (Issuers(s), ToIssuers(c)) =>
    case (Proofs(s), ToProofs(c)) =>
      if c.RegisterProof? {
        FailedRegistrationAgesWhatItRead(w, a, c, auth, b, e);
      }
  }

  lemma ConfigTrapsAfterAWrite(s: PC.State, env: Env, c: PC.Call)
    requires PC.Exec(s, env, c).reply.Trap? && PC.Exec(s, env, c).state != s
    ensures PC.IsMutation(c) && s.configVersion == U32_MAX && Upgrade.AdminAuthorized(s.core, env.auth)
  {
  }

  lemma IssuerTrapsWriteNothing(s: IR.State, env: Env, c: IR.Call)
    requires IR.Exec(s, env, c).reply.Trap?
    ensures IR.Exec(s, env, c).state == s
  {
  }

  lemma ProofTrapsWriteNothing(s: PR.State, env: Env, c: PR.Call)
    requires !c.RegisterProof? && PR.Exec(s, env, c).reply.Trap?
    ensures PR.Exec(s, env, c).state == s
  {
  }

  /** A trap can come after a write in one place only: a config mutation whose counter is spent. There, and only
      there, the outcome relies on the host's rollback. */
  lemma OnlyTheSpentCounterTrapsAfterAWrite(w: World, a: Address, call: Call, auth: set<Address>, b: Address)
    requires Attempt(w, a, call, auth).reply.Trap? && b in w.contracts && b in Attempt(w, a, call, auth).state
    requires Values(Attempt(w, a, call, auth).state[b]) != Values(w.contracts[b])
    ensures b == a && w.contracts[a].Config? && call.ToConfig? && PC.IsMutation(call.config)
    ensures w.contracts[a].config.configVersion == U32_MAX && Upgrade.AdminAuthorized(w.contracts[a].config.core, auth)
    ensures Apply(w, Invoke(a, call, auth)) == w
  {
    var env := EnvAt(w, a, auth);
    match (w.contracts[a], call)
    case (Config(s), ToConfig(c)) => ConfigTrapsAfterAWrite(s, env, c);
    case (Issuers(s), ToIssuers(c)) => IssuerTrapsWriteNothing(s, env, c);
    case (Proofs(s), ToProofs(c)) =>
      if c.RegisterProof? {
        FailedRegistrationWritesNothing(w, a, c, auth, b);
      } else {
        ProofTrapsWriteNothing(s, env, c);
      }
    case _ =>
  }

  /** The partial write does happen: pausing an unpaused config with a spent counter sets the flag and then traps. */
  lemma SpentCounterTrapsAfterTheFlagIsSet(s: PC.State, env: Env)
    requires Upgrade.AdminAuthorized(s.core, env.auth) && s.configVersion == U32_MAX && !s.paused
    ensures PC.Exec(s, env, PC.Pause) == Result(s.(paused := true), Trap)
  {
  }
}
