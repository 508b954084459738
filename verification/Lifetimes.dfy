/** How long ledger entries live, in every run: whether an entry is ever archived is decided by the gaps between the
    steps that extend it, and by nothing else on the ledger. */
module Lifetimes {
  import opened Shared
  import opened Ledger
  import opened Aging
  import opened Entries
  import IR = IssuerRegistry
  import PC = ProtocolConfig
  import PR = ProofRegistry
  import IssuerLaws
  import ProofLaws

  // ----- a run seen from one entry -----

  predicate TouchesAt(steps: seq<Step>, j: nat, b: Address, e: Entry) {
    j < |steps| && Touches(At(steps, j), steps[j], b, e)
  }

  function MomentAt(steps: seq<Step>, j: nat, b: Address, e: Entry): Moment
    requires j <= |steps|
  {
    Moment(At(steps, j).sequence, LiveAt(At(steps, j), b, e), TouchesAt(steps, j, b, e))
  }

  function Observed(steps: seq<Step>, k: nat, b: Address, e: Entry): (h: History)
    requires k <= |steps|
    ensures |h| == k + 1
  {
    (if k == 0 then [] else Observed(steps, k - 1, b, e)) + [MomentAt(steps, k, b, e)]
  }

  /** The history of entry `e` of contract `b` in a run. */
  function HistoryOf(steps: seq<Step>, b: Address, e: Entry): (h: History)
    ensures |h| == |steps| + 1
  {
    Observed(steps, |steps|, b, e)
  }

  lemma {:induction false} ObservedAt(steps: seq<Step>, k: nat, b: Address, e: Entry, j: nat)
    requires j <= k <= |steps|
    ensures Observed(steps, k, b, e)[j] == MomentAt(steps, j, b, e)
    decreases k
  {
    if j < k {
      ObservedAt(steps, k - 1, b, e, j);
    }
  }

  lemma HistoryAt(steps: seq<Step>, b: Address, e: Entry, j: nat)
    requires j <= |steps|
    ensures HistoryOf(steps, b, e)[j] == MomentAt(steps, j, b, e)
  {
    ObservedAt(steps, |steps|, b, e, j);
  }

  lemma StepAges(steps: seq<Step>, j: nat, b: Address, e: Entry)
    requires j < |steps|
    ensures LawfulStep(MomentAt(steps, j, b, e), MomentAt(steps, j + 1, b, e))
    ensures LiveAt(At(steps, j), b, e).Some? && !e.IndexEntry? ==> LiveAt(At(steps, j + 1), b, e).Some?
  {
    EntriesAreSynced(steps, j, b);
    EveryStepAgesEveryEntry(At(steps, j), steps[j], b, e);
  }

  lemma EveryRunIsLawful(steps: seq<Step>, b: Address, e: Entry)
    ensures Lawful(HistoryOf(steps, b, e))
  {
    var h := HistoryOf(steps, b, e);
    forall j | 0 < j < |h| ensures LawfulStep(h[j - 1], h[j]) {
      StepAges(steps, j - 1, b, e);
      HistoryAt(steps, b, e, j - 1);
      HistoryAt(steps, b, e, j);
    }
  }

  lemma MomentsStay(steps: seq<Step>, j: nat, b: Address, e: Entry)
    requires j < |steps| && HistoryOf(steps, b, e)[j].live.Some? && !e.IndexEntry?
    ensures HistoryOf(steps, b, e)[j + 1].live.Some?
  {
    StepAges(steps, j, b, e);
    HistoryAt(steps, b, e, j);
    HistoryAt(steps, b, e, j + 1);
  }

  /** Once written, an entry other than an index entry is there for good. */
  lemma EntriesStay(steps: seq<Step>, i: nat, k: nat, b: Address, e: Entry)
    requires i <= k <= |steps| && HistoryOf(steps, b, e)[i].live.Some? && !e.IndexEntry?
    ensures Present(HistoryOf(steps, b, e), i, k)
    decreases k
  {
    if i < k {
      EntriesStay(steps, i, k - 1, b, e);
      MomentsStay(steps, k - 1, b, e);
    }
  }

  /** In every run, an entry of any kind is live from its creation on if and only if the gaps between the steps that
      touch it survive the lifetime rule. Time, other contracts and other entries have no say. */
  lemma EntryLivesByTheRule(steps: seq<Step>, i: nat, k: nat, b: Address, e: Entry)
    requires Born(HistoryOf(steps, b, e), i) && Present(HistoryOf(steps, b, e), i, k)
    ensures
      var h := HistoryOf(steps, b, e);
      NeverArchived(h, i, k) <==> Survives(TTL_EXTEND_TO, AllGaps(h, i, k))
  {
    EveryRunIsLawful(steps, b, e);
    LifeIsDecidedByGaps(HistoryOf(steps, b, e), i, k);
  }

  // ----- proofs and issuer records -----

  lemma RegistrationBearsProof(steps: seq<Step>, i: nat, p: Address, id: Hash)
    requires ProofLaws.RegistersProof(steps, i, p, id)
    ensures Born(HistoryOf(steps, p, ProofEntry(id)), i + 1)
  {
    HistoryAt(steps, p, ProofEntry(id), i);
    HistoryAt(steps, p, ProofEntry(id), i + 1);
    NewProofIsNew(steps, i, p, id);
  }

  lemma NewProofIsNew(steps: seq<Step>, i: nat, p: Address, id: Hash)
    requires ProofLaws.RegistersProof(steps, i, p, id)
    ensures LiveAt(At(steps, i), p, ProofEntry(id)).None? && LiveAt(At(steps, i + 1), p, ProofEntry(id)).Some?
  {
    EntriesAreSynced(steps, i, p);
    EntriesAreSynced(steps, i + 1, p);
    RegistrationIsGated(At(steps, i), steps[i]);
  }

  /** Whatever else the run does, an entry stays live for at least TTL_THRESHOLD + 1 ledgers after each touch. */
  lemma VisitedEntryStaysLive(steps: seq<Step>, i: nat, k: nat, b: Address, e: Entry)
    requires Born(HistoryOf(steps, b, e), i) && Present(HistoryOf(steps, b, e), i, k)
    ensures WellRenewed(HistoryOf(steps, b, e), i, k)
  {
    EveryRunIsLawful(steps, b, e);
    NewEntryIsWellRenewed(HistoryOf(steps, b, e), i, k);
  }

  /** An entry that cannot be removed needs no premise about its presence. */
  lemma LastingEntryIsWellRenewed(steps: seq<Step>, i: nat, k: nat, b: Address, e: Entry)
    requires i <= k <= |steps| && Born(HistoryOf(steps, b, e), i) && !e.IndexEntry?
    ensures WellRenewed(HistoryOf(steps, b, e), i, k)
  {
    EntriesStay(steps, i, k, b, e);
    VisitedEntryStaysLive(steps, i, k, b, e);
  }

  /** The entry of a registered proof starts with the full term and lives at least TTL_THRESHOLD + 1 ledgers beyond the
      last call that reads or writes the proof. */
  lemma VisitedProofStaysLive(steps: seq<Step>, i: nat, k: nat, p: Address, id: Hash)
    requires i < k <= |steps| && ProofLaws.RegistersProof(steps, i, p, id)
    ensures WellRenewed(HistoryOf(steps, p, ProofEntry(id)), i + 1, k)
  {
    RegistrationBearsProof(steps, i, p, id);
    LastingEntryIsWellRenewed(steps, i + 1, k, p, ProofEntry(id));
  }

  /** The record of a registered issuer starts with the full term and lives at least TTL_THRESHOLD + 1 ledgers beyond
      the last call that touches it, be it an update, a status change, a rotation, a read, or a poll of whatever address
      leads to it at that time. */
  lemma VisitedRecordStaysLive(steps: seq<Step>, i: nat, k: nat, b: Address, id: Hash)
    requires i < k <= |steps| && RegistersIssuer(steps, i, b, id)
    ensures WellRenewed(HistoryOf(steps, b, RecordEntry(id)), i + 1, k)
  {
    RegistrationBearsRecord(steps, i, b, id);
    LastingEntryIsWellRenewed(steps, i + 1, k, b, RecordEntry(id));
  }

  predicate RegistersIssuer(steps: seq<Step>, i: nat, b: Address, id: Hash) {
    && i < |steps| && steps[i].Invoke? && steps[i].target == b && steps[i].call.ToIssuers?
    && steps[i].call.issuers.RegisterIssuer? && steps[i].call.issuers.id == id && Succeeds(At(steps, i), steps[i])
  }

  lemma RegistrationBearsRecord(steps: seq<Step>, i: nat, b: Address, id: Hash)
    requires RegistersIssuer(steps, i, b, id)
    ensures Born(HistoryOf(steps, b, RecordEntry(id)), i + 1)
    ensures Born(HistoryOf(steps, b, IndexEntry(steps[i].call.issuers.address)), i + 1)
  {
    var a := steps[i].call.issuers.address;
    NewIssuerIsNew(steps, i, b, id);
    HistoryAt(steps, b, RecordEntry(id), i);
    HistoryAt(steps, b, RecordEntry(id), i + 1);
    HistoryAt(steps, b, IndexEntry(a), i);
    HistoryAt(steps, b, IndexEntry(a), i + 1);
  }

  lemma NewIssuerIsNew(steps: seq<Step>, i: nat, b: Address, id: Hash)
    requires RegistersIssuer(steps, i, b, id)
    ensures
      var a := steps[i].call.issuers.address;
      && LiveAt(At(steps, i), b, RecordEntry(id)).None? && LiveAt(At(steps, i + 1), b, RecordEntry(id)).Some?
      && LiveAt(At(steps, i), b, IndexEntry(a)).None? && LiveAt(At(steps, i + 1), b, IndexEntry(a)).Some?
  {
    EntriesAreSynced(steps, i, b);
    EachContractMovesAlone(At(steps, i), steps[i], b);
  }

  // ----- the exact safe cadence -----

  lemma {:induction false} SharedWorlds(steps: seq<Step>, more: seq<Step>, k: nat)
    requires k <= |steps|
    ensures At(steps + more, k) == At(steps, k)
  {
    if k > 0 {
      SharedWorlds(steps, more, k - 1);
    }
  }

  lemma SharedMoment(steps: seq<Step>, more: seq<Step>, b: Address, e: Entry, j: nat)
    requires j <= |steps|
    ensures
      var m, m' := HistoryOf(steps, b, e)[j], HistoryOf(steps + more, b, e)[j];
      m.sequence == m'.sequence && m.live == m'.live && (j < |steps| ==> m == m')
  {
    SharedWorlds(steps, more, j);
    HistoryAt(steps, b, e, j);
    HistoryAt(steps + more, b, e, j);
  }

  lemma SharedHistory(steps: seq<Step>, more: seq<Step>, b: Address, e: Entry)
    ensures SameUntil(HistoryOf(steps, b, e), HistoryOf(steps + more, b, e), |steps|)
  {
    SharedMoment(steps, more, b, e, |steps|);
    forall j | 0 <= j < |steps| ensures HistoryOf(steps, b, e)[j] == HistoryOf(steps + more, b, e)[j] {
      SharedMoment(steps, more, b, e, j);
    }
  }

  /** A call that reads the entry and needs nobody's consent. */
  function ReadStep(b: Address, e: Entry): Step {
    Invoke(b, match e
              case SchemaEntry(v) => ToConfig(PC.IsSchemaVersionApproved(v))
              case RecordEntry(id) => ToIssuers(IR.GetIssuer(id))
              case IndexEntry(a) => ToIssuers(IR.GetIssuerByAddress(a))
              case ProofEntry(id) => ToProofs(PR.GetProof(id)), {})
  }

  lemma ReadTouches(w: World, b: Address, e: Entry)
    requires LiveAt(w, b, e).Some? && Synced(w.contracts[b])
    requires e.IndexEntry? ==> IssuerLaws.Inverse(w.contracts[b].issuers)
    ensures Touches(w, ReadStep(b, e), b, e) && LiveAt(Apply(w, ReadStep(b, e)), b, e).Some?
  {
  }

  /** After the run, the entry exists and has just been touched. */
  ghost predicate Rested(steps: seq<Step>, i: nat, b: Address, e: Entry) {
    i <= |steps| && Present(HistoryOf(steps, b, e), i, |steps|) && Pending(HistoryOf(steps, b, e), i, |steps|) == 0
  }

  function GapsOf(steps: seq<Step>, i: nat, b: Address, e: Entry): seq<int>
    requires i <= |steps|
  {
    TouchGaps(HistoryOf(steps, b, e), i, |steps|)
  }

  /** The moments around one more step. */
  lemma {:induction false} OneMoreMoment(steps: seq<Step>, st: Step, b: Address, e: Entry)
    ensures
      var n, w, h' := |steps|, At(steps, |steps|), HistoryOf(steps + [st], b, e);
      && h'[n] == Moment(w.sequence, LiveAt(w, b, e), Touches(w, st, b, e))
      && h'[n + 1].sequence == Apply(w, st).sequence && h'[n + 1].live == LiveAt(Apply(w, st), b, e)
  {
    var next := steps + [st];
    SharedWorlds(steps, [st], |steps|);
    HistoryAt(next, b, e, |steps|);
    HistoryAt(next, b, e, |steps| + 1);
  }

  lemma TickMoves(w: World, b: Address, e: Entry, gap: nat)
    ensures !Touches(w, Tick(0, gap), b, e) && LiveAt(Apply(w, Tick(0, gap)), b, e) == LiveAt(w, b, e)
    ensures Apply(w, Tick(0, gap)).sequence == w.sequence + gap
  {
  }

  lemma TickMoment(steps: seq<Step>, b: Address, e: Entry, gap: nat)
    requires HistoryOf(steps, b, e)[|steps|].live.Some?
    ensures
      var n, h' := |steps|, HistoryOf(steps + [Tick(0, gap)], b, e);
      !h'[n].touched && h'[n + 1].live.Some? && h'[n + 1].sequence == h'[n].sequence + gap
  {
    HistoryAt(steps, b, e, |steps|);
    TickMoves(At(steps, |steps|), b, e, gap);
    OneMoreMoment(steps, Tick(0, gap), b, e);
  }

  lemma {:induction false} ReadWorks(steps: seq<Step>, b: Address, e: Entry)
    requires LiveAt(At(steps, |steps|), b, e).Some?
    ensures
      var w, st := At(steps, |steps|), ReadStep(b, e);
      Touches(w, st, b, e) && LiveAt(Apply(w, st), b, e).Some? && Apply(w, st).sequence == w.sequence
  {
    EntriesAreSynced(steps, |steps|, b);
    if e.IndexEntry? {
      IssuerLaws.IndexAndRecordsAreInverse(steps, |steps|, b);
    }
    ReadTouches(At(steps, |steps|), b, e);
  }

  lemma ReadMoment(steps: seq<Step>, b: Address, e: Entry)
    requires HistoryOf(steps, b, e)[|steps|].live.Some?
    ensures
      var n, h' := |steps|, HistoryOf(steps + [ReadStep(b, e)], b, e);
      h'[n].touched && h'[n + 1].live.Some? && h'[n + 1].sequence == h'[n].sequence
  {
    HistoryAt(steps, b, e, |steps|);
    ReadWorks(steps, b, e);
    OneMoreMoment(steps, ReadStep(b, e), b, e);
  }

  lemma {:induction false} WaitAddsToPending(steps: seq<Step>, i: nat, b: Address, e: Entry, gap: nat)
    requires Rested(steps, i, b, e)
    ensures
      var next := steps + [Tick(0, gap)];
      var h := HistoryOf(next, b, e);
      && Present(h, i, |next|) && TouchGaps(h, i, |next|) == GapsOf(steps, i, b, e) && Pending(h, i, |next|) == gap
  {
    TickMoment(steps, b, e, gap);
    SharedHistory(steps, [Tick(0, gap)], b, e);
    AppendIdle(HistoryOf(steps, b, e), HistoryOf(steps + [Tick(0, gap)], b, e), i, |steps|);
  }

  lemma ReadClosesGap(steps: seq<Step>, i: nat, b: Address, e: Entry)
    requires i <= |steps| && Present(HistoryOf(steps, b, e), i, |steps|)
    ensures Rested(steps + [ReadStep(b, e)], i, b, e)
    ensures GapsOf(steps + [ReadStep(b, e)], i, b, e)
         == GapsOf(steps, i, b, e) + [Pending(HistoryOf(steps, b, e), i, |steps|)]
  {
    ReadMoment(steps, b, e);
    SharedHistory(steps, [ReadStep(b, e)], b, e);
    AppendTouch(HistoryOf(steps, b, e), HistoryOf(steps + [ReadStep(b, e)], b, e), i, |steps|);
  }

  /** After the run, the entry has just been touched and its gaps so far are `gaps`. */
  ghost predicate Realises(steps: seq<Step>, i: nat, b: Address, e: Entry, gaps: seq<int>) {
    Rested(steps, i, b, e) && GapsOf(steps, i, b, e) == gaps
  }

  /** Waiting and then reading adds one gap. */
  lemma VisitAddsGap(steps: seq<Step>, i: nat, b: Address, e: Entry, gaps: seq<int>, gap: nat)
    requires Realises(steps, i, b, e, gaps)
    ensures Realises(steps + [Tick(0, gap)] + [ReadStep(b, e)], i, b, e, gaps + [gap])
  {
    WaitAddsToPending(steps, i, b, e, gap);
    ReadClosesGap(steps + [Tick(0, gap)], i, b, e);
  }

  lemma Regroup(steps: seq<Step>, visit: seq<Step>, more: seq<Step>, gaps: seq<int>, rest: seq<int>)
    requires rest != []
    ensures steps + visit + more == steps + (visit + more) && gaps + [rest[0]] + rest[1..] == gaps + rest
  {
  }

  /** Every series of gaps is the series of gaps of some continuation. */
  lemma AnyGapsCanHappen(steps: seq<Step>, i: nat, b: Address, e: Entry, gaps: seq<int>, rest: seq<int>)
    returns (more: seq<Step>)
    requires Realises(steps, i, b, e, gaps) && (forall j | 0 <= j < |rest| :: rest[j] >= 0)
    ensures Realises(steps + more, i, b, e, gaps + rest)
    decreases |rest|
  {
    if rest == [] {
      more := [];
      assert steps + more == steps && gaps + rest == gaps;
    } else {
      var visit := [Tick(0, rest[0])] + [ReadStep(b, e)];
      assert steps + visit == steps + [Tick(0, rest[0])] + [ReadStep(b, e)];
      VisitAddsGap(steps, i, b, e, gaps, rest[0]);
      var tail := AnyGapsCanHappen(steps + visit, i, b, e, gaps + [rest[0]], rest[1..]);
      more := visit + tail;
      Regroup(steps, visit, tail, gaps, rest);
    }
  }

  /** In the continuation `more` of a run that has just created the entry, the entry exists throughout and no gap
      exceeds `bound`. */
  ghost predicate KeepsCadence(base: seq<Step>, more: seq<Step>, b: Address, e: Entry, bound: nat) {
    var h, n, k := HistoryOf(base + more, b, e), |base|, |base| + |more|;
    Present(h, n, k) && AllWithin(AllGaps(h, n, k), bound)
  }

  ghost predicate StaysLive(base: seq<Step>, more: seq<Step>, b: Address, e: Entry) {
    NeverArchived(HistoryOf(base + more, b, e), |base|, |base| + |more|)
  }

  lemma QuickCadenceIsSafe(base: seq<Step>, more: seq<Step>, b: Address, e: Entry)
    requires Born(HistoryOf(base, b, e), |base|) && KeepsCadence(base, more, b, e, TTL_THRESHOLD + 1)
    ensures StaysLive(base, more, b, e)
  {
    SharedHistory(base, more, b, e);
    EveryRunIsLawful(base + more, b, e);
    QuickLifeGoesOn(HistoryOf(base, b, e), HistoryOf(base + more, b, e), |base|, |base| + |more|);
  }

  lemma NewEntryIsRested(base: seq<Step>, b: Address, e: Entry)
    requires Born(HistoryOf(base, b, e), |base|)
    ensures Realises(base, |base|, b, e, [])
  {
  }

  lemma {:induction false} GapsDecide(base: seq<Step>, more: seq<Step>, b: Address, e: Entry, gaps: seq<int>)
    requires Born(HistoryOf(base, b, e), |base|) && Realises(base + more, |base|, b, e, gaps)
    ensures StaysLive(base, more, b, e) <==> Survives(TTL_EXTEND_TO, gaps)
  {
    SharedHistory(base, more, b, e);
    EveryRunIsLawful(base + more, b, e);
    GapsDecideLife(HistoryOf(base, b, e), HistoryOf(base + more, b, e), |base|, |base| + |more|);
  }

  lemma FatalGapsKeepCadence(base: seq<Step>, more: seq<Step>, b: Address, e: Entry, gaps: seq<int>, bound: nat)
    requires Realises(base + more, |base|, b, e, gaps) && Fatal(gaps) && TTL_THRESHOLD + 2 <= bound
    ensures KeepsCadence(base, more, b, e, bound)
  {
    var all := gaps + [0];
    forall j | 0 <= j < |all| ensures all[j] <= bound {
      if j < |gaps| - 1 {
        assert all[j] == gaps[..|gaps| - 1][j];
      }
    }
  }

  /** Any entry can be lost, after its creation, by a continuation with a single gap of TTL_THRESHOLD + 2 ledgers, all
      others being shorter. */
  lemma OneLongGapIsEnough(base: seq<Step>, b: Address, e: Entry) returns (more: seq<Step>, gaps: seq<int>)
    requires Born(HistoryOf(base, b, e), |base|)
    ensures Realises(base + more, |base|, b, e, gaps) && Fatal(gaps) && !StaysLive(base, more, b, e)
  {
    gaps := FatalGapsExist(TTL_EXTEND_TO);
    NewEntryIsRested(base, b, e);
    more := AnyGapsCanHappen(base, |base|, b, e, [], gaps);
    assert [] + gaps == gaps;
    GapsDecide(base, more, b, e, gaps);
  }

  /** For an entry of any kind, a cadence is safe, in the sense that no continuation of the run that keeps to it ever
      lets the entry be archived, if and only if it allows gaps of at most TTL_THRESHOLD + 1 ledgers. Touching it "at
      least once per 450,000 ledgers" is not safe. */
  lemma SafeCadence(base: seq<Step>, b: Address, e: Entry, bound: nat)
    requires Born(HistoryOf(base, b, e), |base|)
    ensures (forall more | KeepsCadence(base, more, b, e, bound) :: StaysLive(base, more, b, e)) <==> bound <= 50_001
  {
    if bound <= TTL_THRESHOLD + 1 {
      forall more | KeepsCadence(base, more, b, e, bound) ensures StaysLive(base, more, b, e) {
        QuickCadenceIsSafe(base, more, b, e);
      }
    } else {
      var more, gaps := OneLongGapIsEnough(base, b, e);
      FatalGapsKeepCadence(base, more, b, e, gaps, bound);
    }
  }

  // ----- an issuer's record and its index entry age differently -----

  /** Step `st` makes `is_active_address(a)` run on registry `b`: called directly, or by a `register_proof` in the name
      of `a` at a registry that refers to `b`. */
  predicate Polls(w: World, st: Step, b: Address, a: Address) {
    var l := CallOn(w, st, b);
    l.Some? && l.value.call == ToIssuers(IR.IsActiveAddress(a))
  }

  function LastPoll(steps: seq<Step>, i: nat, k: nat, b: Address, a: Address): nat
    requires i <= k <= |steps|
  {
    if i == k then At(steps, i).sequence
    else if Polls(At(steps, k - 1), steps[k - 1], b, a) then At(steps, k - 1).sequence
    else LastPoll(steps, i, k - 1, b, a)
  }

  predicate Bound(w: World, b: Address, a: Address, id: Hash) {
    b in w.contracts && w.contracts[b].Issuers? && a in w.contracts[b].issuers.index && w.contracts[b].issuers.index[a] == id
  }

  ghost predicate BoundThroughout(steps: seq<Step>, i: nat, k: nat, b: Address, a: Address, id: Hash) {
    i <= k <= |steps| && forall j | i <= j <= k :: Bound(At(steps, j), b, a, id)
  }

  lemma PollTouchesRecord(w: World, st: Step, b: Address, a: Address, id: Hash)
    requires Bound(w, b, a, id) && Polls(w, st, b, a)
    ensures Touches(w, st, b, RecordEntry(id))
  {
  }

  lemma {:induction false} PollMoment(steps: seq<Step>, j: nat, b: Address, a: Address, id: Hash)
    requires j < |steps| && Bound(At(steps, j), b, a, id)
    ensures
      var m := HistoryOf(steps, b, RecordEntry(id))[j];
      m.sequence == At(steps, j).sequence && (Polls(At(steps, j), steps[j], b, a) ==> m.touched)
  {
    HistoryAt(steps, b, RecordEntry(id), j);
    if Polls(At(steps, j), steps[j], b, a) {
      PollTouchesRecord(At(steps, j), steps[j], b, a, id);
    }
  }

  lemma {:induction false} PollsAreTouches(steps: seq<Step>, i: nat, k: nat, b: Address, a: Address, id: Hash)
    requires BoundThroughout(steps, i, k, b, a, id)
    ensures LastPoll(steps, i, k, b, a) <= LastTouch(HistoryOf(steps, b, RecordEntry(id)), i, k)
    decreases k
  {
    if i < k {
      PollsAreTouches(steps, i, k - 1, b, a, id);
      LastPollIsPast(steps, i, k - 1, b, a);
      assert Bound(At(steps, k - 1), b, a, id);
      PollMoment(steps, k - 1, b, a, id);
    } else {
      HistoryAt(steps, b, RecordEntry(id), i);
    }
  }

  lemma {:induction false} LastPollIsPast(steps: seq<Step>, i: nat, k: nat, b: Address, a: Address)
    requires i <= k <= |steps|
    ensures LastPoll(steps, i, k, b, a) <= At(steps, k).sequence
    decreases k
  {
    if i < k {
      LastPollIsPast(steps, i, k - 1, b, a);
      ClockNeverRunsBack(steps, k - 1, k);
    }
  }

  predicate FarFromArchival(m: Moment) {
    m.live.Some? && m.live.value >= m.sequence + TTL_THRESHOLD + 1
  }

  /** In every run in which issuer `id` holds address `a`, the record outlives the last poll of `a` by TTL_THRESHOLD + 1
      ledgers, whatever else is called in between. */
  lemma {:induction false} PollingRenewsTheRecord(steps: seq<Step>, i: nat, k: nat, b: Address, a: Address, id: Hash)
    requires BoundThroughout(steps, i, k, b, a, id) && FarFromArchival(HistoryOf(steps, b, RecordEntry(id))[i])
    ensures
      var m := HistoryOf(steps, b, RecordEntry(id))[k];
      m.live.Some? && m.live.value >= LastPoll(steps, i, k, b, a) + TTL_THRESHOLD + 1
  {
    EntriesStay(steps, i, k, b, RecordEntry(id));
    EveryRunIsLawful(steps, b, RecordEntry(id));
    TouchedEntryStaysLive(HistoryOf(steps, b, RecordEntry(id)), i, k);
    PollsAreTouches(steps, i, k, b, a, id);
  }

  /** At no point does the last poll of `a` lie more than TTL_THRESHOLD + 1 ledgers back. */
  ghost predicate PolledOften(steps: seq<Step>, i: nat, k: nat, b: Address, a: Address) {
    i <= k <= |steps| && forall j | i <= j <= k :: RecentlyPolled(steps, i, j, b, a)
  }

  predicate RecentlyPolled(steps: seq<Step>, i: nat, j: nat, b: Address, a: Address)
    requires i <= j <= |steps|
  {
    At(steps, j).sequence <= LastPoll(steps, i, j, b, a) + TTL_THRESHOLD + 1
  }

  lemma PolledRecordIsLive(steps: seq<Step>, i: nat, j: nat, b: Address, a: Address, id: Hash)
    requires BoundThroughout(steps, i, j, b, a, id) && RecentlyPolled(steps, i, j, b, a)
    requires FarFromArchival(HistoryOf(steps, b, RecordEntry(id))[i])
    ensures LiveNow(HistoryOf(steps, b, RecordEntry(id))[j])
  {
    PollingRenewsTheRecord(steps, i, j, b, a, id);
    HistoryAt(steps, b, RecordEntry(id), j);
  }

  lemma PolledRecordIsNeverArchived(steps: seq<Step>, i: nat, k: nat, b: Address, a: Address, id: Hash)
    requires BoundThroughout(steps, i, k, b, a, id) && PolledOften(steps, i, k, b, a)
    requires FarFromArchival(HistoryOf(steps, b, RecordEntry(id))[i])
    ensures NeverArchived(HistoryOf(steps, b, RecordEntry(id)), i, k)
  {
    forall j | i <= j <= k ensures LiveNow(HistoryOf(steps, b, RecordEntry(id))[j]) {
      PolledRecordIsLive(steps, i, j, b, a, id);
    }
  }

  /** Registry `b` is used only through `is_active_address`, of any addresses, directly or by registrations. The rest of
      the ledger does as it likes. */
  ghost predicate OnlyPolled(steps: seq<Step>, i: nat, k: nat, b: Address) {
    i <= k <= |steps| && forall j | i <= j < k :: OnlyPolls(At(steps, j), steps[j], b)
  }

  predicate OnlyPolls(w: World, st: Step, b: Address) {
    var l := CallOn(w, st, b);
    l.Some? ==> l.value.call.ToIssuers? && l.value.call.issuers.IsActiveAddress?
  }

  lemma PollsLeaveTheIndex(w: World, st: Step, b: Address, a: Address, id: Hash)
    requires Bound(w, b, a, id) && OnlyPolls(w, st, b)
    ensures Bound(Apply(w, st), b, a, id) && !Touches(w, st, b, IndexEntry(a))
  {
    EachContractMovesAlone(w, st, b);
  }

  lemma PollKeepsBound(steps: seq<Step>, j: nat, b: Address, a: Address, id: Hash)
    requires j < |steps| && Bound(At(steps, j), b, a, id) && OnlyPolls(At(steps, j), steps[j], b)
    ensures Bound(At(steps, j + 1), b, a, id) && !HistoryOf(steps, b, IndexEntry(a))[j].touched
  {
    PollsLeaveTheIndex(At(steps, j), steps[j], b, a, id);
    HistoryAt(steps, b, IndexEntry(a), j);
  }

  lemma {:induction false} OnlyPolledIsBoundAt(steps: seq<Step>, i: nat, k: nat, b: Address, a: Address, id: Hash)
    requires OnlyPolled(steps, i, k, b) && Bound(At(steps, i), b, a, id)
    ensures Bound(At(steps, k), b, a, id)
    decreases k - i
  {
    if i < k {
      PollKeepsBound(steps, i, b, a, id);
      OnlyPolledIsBoundAt(steps, i + 1, k, b, a, id);
    }
  }

  lemma {:induction false} OnlyPolledStaysBound(steps: seq<Step>, i: nat, k: nat, b: Address, a: Address, id: Hash)
    requires OnlyPolled(steps, i, k, b) && Bound(At(steps, i), b, a, id)
    ensures BoundThroughout(steps, i, k, b, a, id)
  {
    forall j | i <= j <= k ensures Bound(At(steps, j), b, a, id) {
      OnlyPolledIsBoundAt(steps, i, j, b, a, id);
    }
  }

  lemma {:induction false} BoundEntryExists(steps: seq<Step>, j: nat, b: Address, a: Address, id: Hash)
    requires j <= |steps| && Bound(At(steps, j), b, a, id)
    ensures HistoryOf(steps, b, IndexEntry(a))[j].live.Some?
  {
    EntriesAreSynced(steps, j, b);
    HistoryAt(steps, b, IndexEntry(a), j);
  }

  lemma {:induction false} OnlyPolledIndexIsUntouched(steps: seq<Step>, i: nat, k: nat, b: Address, a: Address, id: Hash)
    requires OnlyPolled(steps, i, k, b) && Bound(At(steps, i), b, a, id)
    ensures Present(HistoryOf(steps, b, IndexEntry(a)), i, k) && Untouched(HistoryOf(steps, b, IndexEntry(a)), i, k)
  {
    var h := HistoryOf(steps, b, IndexEntry(a));
    OnlyPolledStaysBound(steps, i, k, b, a, id);
    forall j | i <= j <= k ensures h[j].live.Some? {
      BoundEntryExists(steps, j, b, a, id);
    }
    forall j | i <= j < k ensures !h[j].touched {
      PollKeepsBound(steps, j, b, a, id);
    }
  }

  /** In every run, a live entry of any kind that no step touches keeps its live-until ledger, and is archived as soon as
      the ledger passes it. For an index entry that means: nobody registers it, rotates to it or looks it up. */
  lemma UntouchedEntryRunsOut(steps: seq<Step>, i: nat, k: nat, b: Address, e: Entry)
    requires
      var h := HistoryOf(steps, b, e);
      Present(h, i, k) && Untouched(h, i, k) && LiveNow(h[i])
    ensures
      var h := HistoryOf(steps, b, e);
      && (NeverArchived(h, i, k) <==> h[k].sequence <= h[i].live.value)
      && (NeverArchived(h, i, k) ==> h[k].live == h[i].live)
  {
    EveryRunIsLawful(steps, b, e);
    UntouchedEntryServesItsTerm(HistoryOf(steps, b, e), i, k);
  }

  /** However often it is polled, a registry that is only polled never renews an index entry: the entry serves exactly
      the term it had. */
  lemma {:induction false} PollingNeverRenewsTheIndex(steps: seq<Step>, i: nat, k: nat, b: Address, a: Address, id: Hash)
    requires OnlyPolled(steps, i, k, b) && Bound(At(steps, i), b, a, id)
    requires LiveNow(HistoryOf(steps, b, IndexEntry(a))[i])
    ensures
      var h := HistoryOf(steps, b, IndexEntry(a));
      NeverArchived(h, i, k) <==> h[k].sequence <= h[i].live.value
  {
    OnlyPolledIndexIsUntouched(steps, i, k, b, a, id);
    UntouchedEntryRunsOut(steps, i, k, b, IndexEntry(a));
  }

  lemma {:induction false} RegistrationBinds(steps: seq<Step>, i: nat, b: Address, id: Hash)
    requires RegistersIssuer(steps, i, b, id)
    ensures Bound(At(steps, i + 1), b, steps[i].call.issuers.address, id)
  {
    EachContractMovesAlone(At(steps, i), steps[i], b);
  }

  lemma BornWithFullTerm(steps: seq<Step>, i: nat, b: Address, e: Entry)
    requires Born(HistoryOf(steps, b, e), i)
    ensures
      var m := HistoryOf(steps, b, e)[i];
      m.live == Some(m.sequence + TTL_EXTEND_TO)
  {
    EveryRunIsLawful(steps, b, e);
    NewEntryHasFullTerm(HistoryOf(steps, b, e), i);
  }

  /** From the registration of an issuer on, polling its address often enough keeps the record alive for ever and loses
      the index entry after exactly TTL_EXTEND_TO ledgers. */
  lemma PollingKeepsTheRecordAndLosesTheIndex(steps: seq<Step>, i: nat, k: nat, b: Address, id: Hash)
    requires i < k <= |steps| && RegistersIssuer(steps, i, b, id) && OnlyPolled(steps, i + 1, k, b)
    requires PolledOften(steps, i + 1, k, b, steps[i].call.issuers.address)
    ensures NeverArchived(HistoryOf(steps, b, RecordEntry(id)), i + 1, k)
    ensures
      var h := HistoryOf(steps, b, IndexEntry(steps[i].call.issuers.address));
      NeverArchived(h, i + 1, k) <==> h[k].sequence <= h[i + 1].sequence + TTL_EXTEND_TO
  {
    RegistrationBinds(steps, i, b, id);
    RegistrationBearsRecord(steps, i, b, id);
    PolledFromBirth(steps, i + 1, k, b, steps[i].call.issuers.address, id);
  }

  lemma {:induction false} PolledFromBirth(steps: seq<Step>, i: nat, k: nat, b: Address, a: Address, id: Hash)
    requires OnlyPolled(steps, i, k, b) && PolledOften(steps, i, k, b, a) && Bound(At(steps, i), b, a, id)
    requires Born(HistoryOf(steps, b, RecordEntry(id)), i) && Born(HistoryOf(steps, b, IndexEntry(a)), i)
    ensures NeverArchived(HistoryOf(steps, b, RecordEntry(id)), i, k)
    ensures
      var h := HistoryOf(steps, b, IndexEntry(a));
      NeverArchived(h, i, k) <==> h[k].sequence <= h[i].sequence + TTL_EXTEND_TO
  {
    BornWithFullTerm(steps, i, b, RecordEntry(id));
    BornWithFullTerm(steps, i, b, IndexEntry(a));
    OnlyPolledStaysBound(steps, i, k, b, a, id);
    PolledRecordIsNeverArchived(steps, i, k, b, a, id);
    PollingNeverRenewsTheIndex(steps, i, k, b, a, id);
  }
}
