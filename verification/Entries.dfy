/** The persistent entries of the three contracts, the calls that extend them, and what one step does to the
    live-until ledger of an entry. */
module Entries {
  import opened Shared
  import opened Ledger
  import opened Aging
  import PC = ProtocolConfig
  import IR = IssuerRegistry
  import PR = ProofRegistry

  datatype Entry =
    | SchemaEntry(schema: u32)
    | RecordEntry(issuer: Hash)
    | IndexEntry(address: Address)
    | ProofEntry(proof: Hash)

  function Get<K, V>(m: map<K, V>, key: K): Option<V> {
    if key in m then Some(m[key]) else None
  }

  function LiveIn(i: Instance, e: Entry): Option<nat> {
    match (i, e)
    case (Config(s), SchemaEntry(v)) => Get(s.live, v)
    case (Issuers(s), RecordEntry(id)) => Get(s.issuerLive, id)
    case (Issuers(s), IndexEntry(a)) => Get(s.indexLive, a)
    case (Proofs(s), ProofEntry(id)) => Get(s.live, id)
    case _ => None
  }

  /** The live-until ledger of entry `e` of contract `b`, if there is such an entry. */
  function LiveAt(w: World, b: Address, e: Entry): Option<nat> {
    if b in w.contracts then LiveIn(w.contracts[b], e) else None
  }

  // ----- the calls that extend an entry -----

  predicate ExtendsSchema(c: PC.Call, v: u32) {
    match c
    case ApproveSchemaVersion(x) => x == v
    case DeprecateSchemaVersion(x) => x == v
    case IsSchemaVersionApproved(x) => x == v
    case _ => false
  }

  predicate ExtendsRecord(s: IR.State, c: IR.Call, id: Hash) {
    match c
    case RegisterIssuer(x, _, _) => x == id
    case UpdateIssuer(x, _) => x == id
    case SetStatus(x, _) => x == id
    case RotateIssuerAddress(x, _) => x == id
    case GetIssuer(x) => x == id
    case IsActiveIssuer(x) => x == id
    case IsActiveAddress(a) => a in s.index && s.index[a] == id
    case _ => false
  }

  predicate ExtendsIndex(c: IR.Call, a: Address) {
    match c
    case RegisterIssuer(_, x, _) => x == a
    case RotateIssuerAddress(_, x) => x == a
    case GetIssuerByAddress(x) => x == a
    case _ => false
  }

  predicate ExtendsProof(c: PR.Call, id: Hash) {
    match c
    case RegisterProof(x, _, _, _, _) => x == id
    case RevokeProof(x) => x == id
    case AdminRevokeProof(x) => x == id
    case GetProof(x) => x == id
    case IsValidProof(x) => x == id
    case IsRevoked(x) => x == id
    case _ => false
  }

  predicate Extends(i: Instance, call: Call, e: Entry) {
    match (i, call)
    case (Config(s), ToConfig(c)) => e.SchemaEntry? && ExtendsSchema(c, e.schema)
    case (Issuers(s), ToIssuers(c)) =>
      (e.RecordEntry? && ExtendsRecord(s, c, e.issuer)) || (e.IndexEntry? && ExtendsIndex(c, e.address))
    case (Proofs(s), ToProofs(c)) => e.ProofEntry? && ExtendsProof(c, e.proof)
    case _ => false
  }

  /** Step `st` successfully makes a call on `b`, directly or from a registration, that extends entry `e`. */
  predicate Touches(w: World, st: Step, b: Address, e: Entry) {
    var l := CallOn(w, st, b);
    l.Some? && b in w.contracts && Extends(w.contracts[b], l.value.call, e)
  }

  // ----- what one step does to an entry -----

  /** Every stored entry has a live-until ledger, and only stored entries do. */
  predicate Synced(i: Instance) {
    match i
    case Config(s) => s.live.Keys == s.schemas.Keys && 0 !in s.schemas
    case Issuers(s) => s.issuerLive.Keys == s.issuers.Keys && s.indexLive.Keys == s.index.Keys
    case Proofs(s) => s.live.Keys == s.proofs.Keys
  }

  lemma SchemaEntriesAge(s: PC.State, env: Env, c: PC.Call, v: u32)
    requires Synced(Config(s)) && PC.Exec(s, env, c).reply.Ok?
    ensures
      var s' := PC.Exec(s, env, c).state;
      && Synced(Config(s'))
      && Ages(Get(s.live, v), Get(s'.live, v), env.sequence, ExtendsSchema(c, v))
      && (v in s.live ==> v in s'.live)
  {
  }

  lemma RecordWritesAge(s: IR.State, env: Env, id: Hash, record: IssuerRecord, other: Hash)
    requires Synced(Issuers(s))
    ensures
      var s' := IR.Stored(s, env, id, record);
      && Ages(Get(s.issuerLive, other), Get(s'.issuerLive, other), env.sequence, other == id)
      && (other in s.issuerLive ==> other in s'.issuerLive)
  {
  }

  /** The calls that write a record. */
  predicate WritesRecord(c: IR.Call) {
    c.RegisterIssuer? || c.UpdateIssuer? || c.SetStatus? || c.RotateIssuerAddress?
  }

  lemma WriteStoresRecord(s: IR.State, env: Env, c: IR.Call)
    requires WritesRecord(c) && IR.Exec(s, env, c).reply.Ok?
    ensures exists record :: IR.Exec(s, env, c).state.issuerLive == IR.Stored(s, env, c.id, record).issuerLive
  {
    var record := IssuerRecord(c.id, Address(""), c.id, IssuerStatus.Active, 0, 0);
    assert IR.Exec(s, env, c).state.issuerLive == IR.Stored(s, env, c.id, record).issuerLive;
  }

  lemma RecordEntriesAge(s: IR.State, env: Env, c: IR.Call, id: Hash)
    requires Synced(Issuers(s)) && IR.Exec(s, env, c).reply.Ok?
    ensures
      var s' := IR.Exec(s, env, c).state;
      && Ages(Get(s.issuerLive, id), Get(s'.issuerLive, id), env.sequence, ExtendsRecord(s, c, id))
      && (id in s.issuerLive ==> id in s'.issuerLive)
  {
    if WritesRecord(c) {
      WriteStoresRecord(s, env, c);
      var record :| IR.Exec(s, env, c).state.issuerLive == IR.Stored(s, env, c.id, record).issuerLive;
      RecordWritesAge(s, env, c.id, record, id);
    } else {
      RecordReadsAge(s, env, c, id);
    }
  }

  lemma RecordReadsAge(s: IR.State, env: Env, c: IR.Call, id: Hash)
    requires Synced(Issuers(s)) && IR.Exec(s, env, c).reply.Ok? && !WritesRecord(c)
    ensures
      var s' := IR.Exec(s, env, c).state;
      && Ages(Get(s.issuerLive, id), Get(s'.issuerLive, id), env.sequence, ExtendsRecord(s, c, id))
      && (id in s.issuerLive ==> id in s'.issuerLive)
  {
  }

  lemma IndexEntriesAge(s: IR.State, env: Env, c: IR.Call, a: Address)
    requires Synced(Issuers(s)) && IR.Exec(s, env, c).reply.Ok?
    ensures Ages(Get(s.indexLive, a), Get(IR.Exec(s, env, c).state.indexLive, a), env.sequence, ExtendsIndex(c, a))
  {
    if WritesRecord(c) {
      IndexWritesAge(s, env, c, a);
    } else {
      IndexReadsAge(s, env, c, a);
    }
  }

  lemma IndexWritesAge(s: IR.State, env: Env, c: IR.Call, a: Address)
    requires Synced(Issuers(s)) && IR.Exec(s, env, c).reply.Ok? && WritesRecord(c)
    ensures Ages(Get(s.indexLive, a), Get(IR.Exec(s, env, c).state.indexLive, a), env.sequence, ExtendsIndex(c, a))
  {
  }

  lemma IndexReadsAge(s: IR.State, env: Env, c: IR.Call, a: Address)
    requires Synced(Issuers(s)) && IR.Exec(s, env, c).reply.Ok? && !WritesRecord(c)
    ensures Ages(Get(s.indexLive, a), Get(IR.Exec(s, env, c).state.indexLive, a), env.sequence, ExtendsIndex(c, a))
  {
  }

  lemma EveryIssuerCallKeepsSynced(s: IR.State, env: Env, c: IR.Call)
    requires Synced(Issuers(s))
    ensures Synced(Issuers(IR.Exec(s, env, c).state))
  {
    match c
    case RegisterIssuer(id, a, m) => RegistrationKeepsSynced(s, env, id, a, m);
    case RotateIssuerAddress(id, a) => RotationKeepsSynced(s, env, id, a);
    case _ =>
  }

  lemma RegistrationKeepsSynced(s: IR.State, env: Env, id: Hash, a: Address, m: Hash)
    requires Synced(Issuers(s))
    ensures Synced(Issuers(IR.Registered(s, env, id, a, m).state))
  {
  }

  lemma RotationKeepsSynced(s: IR.State, env: Env, id: Hash, a: Address)
    requires Synced(Issuers(s))
    ensures Synced(Issuers(IR.Rotated(s, env, id, a).state))
  {
  }

  lemma ProofEntriesAge(s: PR.State, env: Env, c: PR.Call, id: Hash)
    requires Synced(Proofs(s)) && !c.RegisterProof? && PR.Exec(s, env, c).reply.Ok?
    ensures
      var s' := PR.Exec(s, env, c).state;
      && Synced(Proofs(s'))
      && Ages(Get(s.live, id), Get(s'.live, id), env.sequence, ExtendsProof(c, id))
      && (id in s.live ==> id in s'.live)
  {
  }

  lemma NewProofAges(s: PR.State, env: Env, c: PR.Call, id: Hash)
    requires Synced(Proofs(s)) && c.RegisterProof? && c.id !in s.proofs
    ensures
      var s' := PR.Stored(s, env, c.id, PR.NewRecord(env, c));
      && Synced(Proofs(s'))
      && Ages(Get(s.live, id), Get(s'.live, id), env.sequence, ExtendsProof(c, id))
      && (id in s.live ==> id in s'.live)
  {
  }

  lemma ProofsAge(w: World, st: Step, b: Address, id: Hash)
    requires b in w.contracts && w.contracts[b].Proofs? && Synced(w.contracts[b]) && CallOn(w, st, b).Some?
    ensures
      var w' := Apply(w, st);
      && b in w'.contracts && w'.contracts[b].Proofs? && Synced(w'.contracts[b])
      && Ages(LiveAt(w, b, ProofEntry(id)), LiveAt(w', b, ProofEntry(id)), w.sequence, Touches(w, st, b, ProofEntry(id)))
      && (LiveAt(w, b, ProofEntry(id)).Some? ==> LiveAt(w', b, ProofEntry(id)).Some?)
  {
    EachContractMovesAlone(w, st, b);
    var s, l := w.contracts[b].proofs, CallOn(w, st, b).value;
    if IsRegistration(st) {
      RegistrationIsGated(w, st);
      NewProofAges(s, l.env, st.call.proofs, id);
    } else {
      ProofEntriesAge(s, l.env, l.call.proofs, id);
    }
  }

  lemma IssuersAge(w: World, st: Step, b: Address, e: Entry)
    requires b in w.contracts && w.contracts[b].Issuers? && Synced(w.contracts[b]) && CallOn(w, st, b).Some?
    requires e.RecordEntry? || e.IndexEntry?
    ensures
      var w' := Apply(w, st);
      && b in w'.contracts && w'.contracts[b].Issuers? && Synced(w'.contracts[b])
      && Ages(LiveAt(w, b, e), LiveAt(w', b, e), w.sequence, Touches(w, st, b, e))
      && (LiveAt(w, b, e).Some? && !e.IndexEntry? ==> LiveAt(w', b, e).Some?)
  {
    EachContractMovesAlone(w, st, b);
    var s, l := w.contracts[b].issuers, CallOn(w, st, b).value;
    EveryIssuerCallKeepsSynced(s, l.env, l.call.issuers);
    match e
    case RecordEntry(id) => RecordEntriesAge(s, l.env, l.call.issuers, id);
    case IndexEntry(a) => IndexEntriesAge(s, l.env, l.call.issuers, a);
  }

  /** Reading an archived entry without extending it brings it back with the host's minimum: the index entry when its
      address is polled, the record when it is looked up by address. */
  lemma ReadingRestores(s: IR.State, env: Env, a: Address)
    requires Synced(Issuers(s)) && a in s.index && s.index[a] in s.issuers
    ensures
      var polled := IR.Exec(s, env, IR.IsActiveAddress(a)).state;
      && (s.indexLive[a] < env.sequence ==> Get(polled.indexLive, a) == Some(env.sequence + 4_095))
      && (s.indexLive[a] >= env.sequence ==> Get(polled.indexLive, a) == Get(s.indexLive, a))
    ensures
      var id, looked := s.index[a], IR.Exec(s, env, IR.GetIssuerByAddress(a)).state;
      && (s.issuerLive[id] < env.sequence ==> Get(looked.issuerLive, id) == Some(env.sequence + 4_095))
      && (s.issuerLive[id] >= env.sequence ==> Get(looked.issuerLive, id) == Get(s.issuerLive, id))
  {
  }

  lemma SchemasAge(w: World, st: Step, b: Address, v: u32)
    requires b in w.contracts && w.contracts[b].Config? && Synced(w.contracts[b]) && CallOn(w, st, b).Some?
    ensures
      var w' := Apply(w, st);
      && b in w'.contracts && w'.contracts[b].Config? && Synced(w'.contracts[b])
      && Ages(LiveAt(w, b, SchemaEntry(v)), LiveAt(w', b, SchemaEntry(v)), w.sequence, Touches(w, st, b, SchemaEntry(v)))
      && (LiveAt(w, b, SchemaEntry(v)).Some? ==> LiveAt(w', b, SchemaEntry(v)).Some?)
  {
    EachContractMovesAlone(w, st, b);
    var s, l := w.contracts[b].config, CallOn(w, st, b).value;
    SchemaEntriesAge(s, l.env, l.call.config, v);
  }

  /** Every step, of whatever kind and at whatever contract, ages every entry by that rule; only index entries are
      ever removed. */
  lemma EveryStepAgesEveryEntry(w: World, st: Step, b: Address, e: Entry)
    requires b in w.contracts ==> Synced(w.contracts[b])
    ensures Ages(LiveAt(w, b, e), LiveAt(Apply(w, st), b, e), w.sequence, Touches(w, st, b, e))
    ensures LiveAt(w, b, e).Some? && !e.IndexEntry? ==> LiveAt(Apply(w, st), b, e).Some?
  {
    EachContractMovesAlone(w, st, b);
    if b in w.contracts && CallOn(w, st, b).Some? {
      match (w.contracts[b], e)
      case (Config(_), SchemaEntry(v)) => SchemasAge(w, st, b, v);
      case (Issuers(_), RecordEntry(_)) => IssuersAge(w, st, b, e);
      case (Issuers(_), IndexEntry(_)) => IssuersAge(w, st, b, e);
      case (Proofs(_), ProofEntry(id)) => ProofsAge(w, st, b, id);
      case _ =>
    }
  }

  lemma EveryStepKeepsSynced(w: World, st: Step, b: Address)
    requires b in w.contracts && Synced(w.contracts[b])
    ensures b in Apply(w, st).contracts && Synced(Apply(w, st).contracts[b])
  {
    EachContractMovesAlone(w, st, b);
    if CallOn(w, st, b).Some? {
      match w.contracts[b]
      case Config(_) => SchemasAge(w, st, b, 0);
      case Issuers(_) => IssuersAge(w, st, b, RecordEntry(Hash(0)));
      case Proofs(_) => ProofsAge(w, st, b, Hash(0));
    }
  }

  lemma {:induction false} EntriesAreSynced(steps: seq<Step>, k: nat, b: Address)
    requires k <= |steps|
    ensures b in At(steps, k).contracts ==> Synced(At(steps, k).contracts[b])
  {
    if k > 0 {
      EntriesAreSynced(steps, k - 1, b);
      var w, st := At(steps, k - 1), steps[k - 1];
      if b in w.contracts {
        EveryStepKeepsSynced(w, st, b);
      } else {
        EachContractMovesAlone(w, st, b);
      }
    }
  }
}
