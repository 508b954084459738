/** Every field of an issuer record, after any run, is the argument or the time of the last call that is meant to set it. */
module IssuerHistory {
  import opened Shared
  import opened Ledger
  import opened Latest
  import opened Settings
  import IR = IssuerRegistry

  function RecordOf(w: World, b: Address, id: Hash): Option<IssuerRecord> {
    var i := IssuersAt(w, Some(b));
    if i.Some? && id in i.value.issuers then Some(i.value.issuers[id]) else None
  }

  // ----- the fields -----

  function MetadataOf(r: Option<IssuerRecord>): Option<Hash> {
    if r.Some? then Some(r.value.metadata) else None
  }

  function AddressOf(r: Option<IssuerRecord>): Option<Address> {
    if r.Some? then Some(r.value.address) else None
  }

  function StatusOf(r: Option<IssuerRecord>): Option<IssuerStatus> {
    if r.Some? then Some(r.value.status) else None
  }

  function CreatedOf(r: Option<IssuerRecord>): Option<nat> {
    if r.Some? then Some(r.value.createdAt) else None
  }

  function UpdatedOf(r: Option<IssuerRecord>): Option<nat> {
    if r.Some? then Some(r.value.updatedAt) else None
  }

  // ----- what calls set -----

  function MetadataSet(c: IR.Call, id: Hash): Option<Hash> {
    match c
    case RegisterIssuer(x, _, m) => if x == id then Some(m) else None
    case UpdateIssuer(x, m) => if x == id then Some(m) else None
    case _ => None
  }

  function AddressSet(c: IR.Call, id: Hash): Option<Address> {
    match c
    case RegisterIssuer(x, a, _) => if x == id then Some(a) else None
    case RotateIssuerAddress(x, a) => if x == id then Some(a) else None
    case _ => None
  }

  function StatusSet(c: IR.Call, id: Hash): Option<IssuerStatus> {
    match c
    case RegisterIssuer(x, _, _) => if x == id then Some(IssuerStatus.Active) else None
    case SetStatus(x, st) => if x == id then Some(st) else None
    case _ => None
  }

  predicate Registers(c: IR.Call, id: Hash) {
    c.RegisterIssuer? && c.id == id
  }

  predicate Changes(c: IR.Call, id: Hash) {
    (c.RegisterIssuer? || c.UpdateIssuer? || c.SetStatus? || c.RotateIssuerAddress?) && c.id == id
  }

  function Or<V>(newer: Option<V>, older: Option<V>): Option<V> {
    if newer.Some? then newer else older
  }

  /** The record moves field by field. */
  predicate RecordMoves(r: Option<IssuerRecord>, r': Option<IssuerRecord>, c: IR.Call, id: Hash, now: nat) {
    && MetadataOf(r') == Or(MetadataSet(c, id), MetadataOf(r))
    && AddressOf(r') == Or(AddressSet(c, id), AddressOf(r))
    && StatusOf(r') == Or(StatusSet(c, id), StatusOf(r))
    && CreatedOf(r') == (if Registers(c, id) then Some(now) else CreatedOf(r))
    && UpdatedOf(r') == (if Changes(c, id) then Some(now) else UpdatedOf(r))
  }

  function RecordIn(s: IR.State, id: Hash): Option<IssuerRecord> {
    if id in s.issuers then Some(s.issuers[id]) else None
  }

  lemma EveryCallMovesRecords(s: IR.State, env: Env, c: IR.Call, id: Hash)
    requires IR.Exec(s, env, c).reply.Ok?
    ensures RecordMoves(RecordIn(s, id), RecordIn(IR.Exec(s, env, c).state, id), c, id, env.now)
  {
    match c
    case RegisterIssuer(x, a, m) => RegistrationMovesRecords(s, env, c, id);
    case RotateIssuerAddress(x, a) => RotationMovesRecords(s, env, c, id);
    case _ =>
  }

  lemma RegistrationMovesRecords(s: IR.State, env: Env, c: IR.Call, id: Hash)
    requires c.RegisterIssuer? && IR.Exec(s, env, c).reply.Ok?
    ensures RecordMoves(RecordIn(s, id), RecordIn(IR.Exec(s, env, c).state, id), c, id, env.now)
  {
  }

  lemma RotationMovesRecords(s: IR.State, env: Env, c: IR.Call, id: Hash)
    requires c.RotateIssuerAddress? && IR.Exec(s, env, c).reply.Ok?
    ensures RecordMoves(RecordIn(s, id), RecordIn(IR.Exec(s, env, c).state, id), c, id, env.now)
  {
  }

  /** The issuer call that a step successfully makes on contract `b`. */
  function IssuerCall(w: World, st: Step, b: Address): Option<IR.Call> {
    if CallsFine(w, st, b) && st.call.ToIssuers? then Some(st.call.issuers) else None
  }

  lemma EveryStepMovesRecords(w: World, st: Step, b: Address, id: Hash)
    ensures
      match IssuerCall(w, st, b)
      case Some(c) => RecordMoves(RecordOf(w, b, id), RecordOf(Apply(w, st), b, id), c, id, w.now)
      case None => RecordOf(Apply(w, st), b, id) == RecordOf(w, b, id)
  {
    EachContractMovesAlone(w, st, b);
    if b in w.contracts && w.contracts[b].Issuers? && CallOn(w, st, b).Some? {
      var l := CallOn(w, st, b).value;
      EveryCallMovesRecords(w.contracts[b].issuers, l.env, l.call.issuers, id);
    }
  }

  // ----- the last call decides -----

  function Write<V>(c: Option<IR.Call>, sets: IR.Call -> Option<V>): Option<Option<V>> {
    if c.Some? && sets(c.value).Some? then Some(sets(c.value)) else None
  }

  function MetadataWrites(b: Address, id: Hash): Writer<Option<Hash>> {
    (w: World, st: Step) => Write(IssuerCall(w, st, b), (c: IR.Call) => MetadataSet(c, id))
  }

  function AddressWrites(b: Address, id: Hash): Writer<Option<Address>> {
    (w: World, st: Step) => Write(IssuerCall(w, st, b), (c: IR.Call) => AddressSet(c, id))
  }

  function StatusWrites(b: Address, id: Hash): Writer<Option<IssuerStatus>> {
    (w: World, st: Step) => Write(IssuerCall(w, st, b), (c: IR.Call) => StatusSet(c, id))
  }

  function CreationWrites(b: Address, id: Hash): Writer<Option<nat>> {
    (w: World, st: Step) => Write(IssuerCall(w, st, b), (c: IR.Call) => if Registers(c, id) then Some(w.now) else None)
  }

  function ChangeWrites(b: Address, id: Hash): Writer<Option<nat>> {
    (w: World, st: Step) => Write(IssuerCall(w, st, b), (c: IR.Call) => if Changes(c, id) then Some(w.now) else None)
  }

  /** An issuer's metadata is the argument of the last successful registration or update of it. */
  lemma {:induction false} MetadataIsLatest(steps: seq<Step>, k: nat, b: Address, id: Hash)
    requires k <= |steps|
    ensures MetadataOf(RecordOf(At(steps, k), b, id)) == LatestWrite(steps, k, MetadataWrites(b, id), None)
  {
    var field := (w: World) => MetadataOf(RecordOf(w, b, id));
    forall w, st ensures Moves(field, MetadataWrites(b, id), w, st) {
      EveryStepMovesRecords(w, st, b, id);
    }
    FieldIsLatestWrite(steps, k, field, MetadataWrites(b, id), None);
  }

  /** Its address is the argument of the last successful registration or rotation. */
  lemma {:induction false} AddressIsLatest(steps: seq<Step>, k: nat, b: Address, id: Hash)
    requires k <= |steps|
    ensures AddressOf(RecordOf(At(steps, k), b, id)) == LatestWrite(steps, k, AddressWrites(b, id), None)
  {
    var field := (w: World) => AddressOf(RecordOf(w, b, id));
    forall w, st ensures Moves(field, AddressWrites(b, id), w, st) {
      EveryStepMovesRecords(w, st, b, id);
    }
    FieldIsLatestWrite(steps, k, field, AddressWrites(b, id), None);
  }

  /** Its status is the last one set, Active to begin with. */
  lemma {:induction false} StatusIsLatest(steps: seq<Step>, k: nat, b: Address, id: Hash)
    requires k <= |steps|
    ensures StatusOf(RecordOf(At(steps, k), b, id)) == LatestWrite(steps, k, StatusWrites(b, id), None)
  {
    var field := (w: World) => StatusOf(RecordOf(w, b, id));
    forall w, st ensures Moves(field, StatusWrites(b, id), w, st) {
      EveryStepMovesRecords(w, st, b, id);
    }
    FieldIsLatestWrite(steps, k, field, StatusWrites(b, id), None);
  }

  /** Its createdAt is the time of its registration. */
  lemma {:induction false} CreationIsRegistration(steps: seq<Step>, k: nat, b: Address, id: Hash)
    requires k <= |steps|
    ensures CreatedOf(RecordOf(At(steps, k), b, id)) == LatestWrite(steps, k, CreationWrites(b, id), None)
  {
    var field := (w: World) => CreatedOf(RecordOf(w, b, id));
    forall w, st ensures Moves(field, CreationWrites(b, id), w, st) {
      EveryStepMovesRecords(w, st, b, id);
    }
    FieldIsLatestWrite(steps, k, field, CreationWrites(b, id), None);
  }

  /** Its updatedAt is the time of the last successful registration, update, status change or rotation. */
  lemma {:induction false} UpdateIsLatestChange(steps: seq<Step>, k: nat, b: Address, id: Hash)
    requires k <= |steps|
    ensures UpdatedOf(RecordOf(At(steps, k), b, id)) == LatestWrite(steps, k, ChangeWrites(b, id), None)
  {
    var field := (w: World) => UpdatedOf(RecordOf(w, b, id));
    forall w, st ensures Moves(field, ChangeWrites(b, id), w, st) {
      EveryStepMovesRecords(w, st, b, id);
    }
    FieldIsLatestWrite(steps, k, field, ChangeWrites(b, id), None);
  }
}
