/** The lifetime rule by itself: what an observer of one entry sees, and when such an entry is ever archived. */
module Aging {
  import opened Shared

  // ----- one step -----

  function RenewedUntil(live: nat, sequence: nat): nat {
    if live <= sequence + TTL_THRESHOLD then sequence + TTL_EXTEND_TO else live
  }

  /** How a live-until ledger may move in one step: a new entry gets the full term, a touch renews an entry that is
      close to its end, and anything else leaves a live entry alone and at most restores an archived one, to the host's
      minimum of 4,095 further ledgers. */
  predicate Ages(before: Option<nat>, after: Option<nat>, sequence: nat, touched: bool) {
    && (before.None? && after.Some? ==> touched && after.value == sequence + TTL_EXTEND_TO)
    && (before.Some? && after.Some? ==>
          if touched then after.value == RenewedUntil(before.value, sequence)
          else if sequence <= before.value then after == before
          else after == before || after.value == sequence + 4_095)
  }

  // ----- the lifetime rule as arithmetic on gaps -----

  function Renewed(remaining: int): int {
    if remaining <= TTL_THRESHOLD then TTL_EXTEND_TO else remaining
  }

  /** An entry with `remaining` ledgers to live, extended after each of the given gaps: is it live each time? */
  predicate Survives(remaining: int, gaps: seq<int>)
    decreases |gaps|
  {
    gaps == [] || (remaining >= gaps[0] && Survives(Renewed(remaining - gaps[0]), gaps[1..]))
  }

  /** What remains right after the last of them. */
  function Left(remaining: int, gaps: seq<int>): int
    decreases |gaps|
  {
    if gaps == [] then remaining else Left(Renewed(remaining - gaps[0]), gaps[1..])
  }

  lemma {:induction false} OneMoreGap(remaining: int, gaps: seq<int>, gap: int)
    ensures Survives(remaining, gaps + [gap]) <==> Survives(remaining, gaps) && gap <= Left(remaining, gaps)
    ensures Left(remaining, gaps + [gap]) == Renewed(Left(remaining, gaps) - gap)
    decreases |gaps|
  {
    var all := gaps + [gap];
    if gaps == [] {
      assert all == [gap] && all[1..] == [];
    } else {
      assert all[0] == gaps[0] && all[1..] == gaps[1..] + [gap];
      OneMoreGap(Renewed(remaining - gaps[0]), gaps[1..], gap);
    }
  }

  lemma {:induction false} LeftIsPositive(remaining: int, gaps: seq<int>)
    requires remaining >= 0
    ensures Left(remaining, gaps) >= 0
    decreases |gaps|
  {
    if gaps != [] {
      LeftIsPositive(Renewed(remaining - gaps[0]), gaps[1..]);
    }
  }

  ghost predicate AllWithin(gaps: seq<int>, bound: nat) {
    forall i | 0 <= i < |gaps| :: gaps[i] <= bound
  }

  lemma {:induction false} QuickVisitsSuffice(remaining: int, gaps: seq<int>)
    requires remaining >= TTL_THRESHOLD + 1 && AllWithin(gaps, TTL_THRESHOLD + 1)
    ensures Survives(remaining, gaps)
    decreases |gaps|
  {
    if gaps != [] {
      QuickVisitsSuffice(Renewed(remaining - gaps[0]), gaps[1..]);
    }
  }

  /** Visits that all come in the last TTL_THRESHOLD ledgers of the entry's life renew it every time: an operator who
      waits at least 450,000 ledgers, and at most 500,000, between visits is safe. */
  lemma {:induction false} LateVisitsSuffice(gaps: seq<int>)
    requires AllWithin(gaps, TTL_EXTEND_TO) && forall i | 0 <= i < |gaps| :: TTL_EXTEND_TO - TTL_THRESHOLD <= gaps[i]
    ensures Survives(TTL_EXTEND_TO, gaps)
    decreases |gaps|
  {
    if gaps != [] {
      LateVisitsSuffice(gaps[1..]);
    }
  }

  /** Visits that bring the entry down to TTL_THRESHOLD + 1 remaining ledgers, where a visit does nothing yet, and then
      come one ledger too late. */
  function Starving(remaining: nat): seq<int>
    requires remaining >= TTL_THRESHOLD + 1
  {
    if remaining == TTL_THRESHOLD + 1 then [TTL_THRESHOLD + 2]
    else if remaining >= 2 * (TTL_THRESHOLD + 1) then [TTL_THRESHOLD + 1] + Starving(remaining - (TTL_THRESHOLD + 1))
    else [remaining - (TTL_THRESHOLD + 1)] + Starving(TTL_THRESHOLD + 1)
  }

  /** One single gap of TTL_THRESHOLD + 2 ledgers, the last, is enough to lose the entry. */
  lemma {:induction false} StarvingArchives(remaining: nat)
    requires remaining >= TTL_THRESHOLD + 1
    ensures
      var gaps := Starving(remaining);
      && !Survives(remaining, gaps)
      && gaps != [] && gaps[|gaps| - 1] == TTL_THRESHOLD + 2 && AllWithin(gaps[..|gaps| - 1], TTL_THRESHOLD + 1)
      && forall j | 0 <= j < |gaps| :: gaps[j] >= 0
  {
    var gaps := Starving(remaining);
    if remaining > TTL_THRESHOLD + 1 {
      var rest := remaining - gaps[0];
      StarvingArchives(rest);
      assert gaps[1..] == Starving(rest);
      assert gaps[..|gaps| - 1] == [gaps[0]] + Starving(rest)[..|gaps| - 2];
    }
  }

  // ----- observing one entry -----

  /** One observation: the ledger, the entry's live-until ledger if it exists, and whether the next step extends it. */
  datatype Moment = Moment(sequence: nat, live: Option<nat>, touched: bool)

  type History = seq<Moment>

  /** The clock does not run back, calls take no time, and every step ages the entry. */
  ghost predicate Lawful(h: History) {
    forall j | 0 < j < |h| :: LawfulStep(h[j - 1], h[j])
  }

  predicate LawfulStep(m: Moment, m': Moment) {
    && m.sequence <= m'.sequence && (m.touched ==> m.sequence == m'.sequence)
    && Ages(m.live, m'.live, m.sequence, m.touched)
  }

  predicate LiveNow(m: Moment) {
    m.live.Some? && m.sequence <= m.live.value
  }

  /** From moment `i` to moment `k` the entry exists. */
  ghost predicate Present(h: History, i: nat, k: nat) {
    i <= k < |h| && forall j | i <= j <= k :: h[j].live.Some?
  }

  /** The entry is created just before moment `i`. */
  predicate Born(h: History, i: nat) {
    0 < i < |h| && h[i - 1].live.None? && h[i].live.Some?
  }

  /** From moment `i` to moment `k` the entry is live all the time. */
  ghost predicate NeverArchived(h: History, i: nat, k: nat) {
    i <= k < |h| && forall j | i <= j <= k :: LiveNow(h[j])
  }

  /** The ledger of the last touch between moments `i` and `k`, or of moment `i` if there is none. */
  function LastTouch(h: History, i: nat, k: nat): nat
    requires i <= k < |h|
  {
    if i == k then h[i].sequence
    else if h[k - 1].touched then h[k - 1].sequence
    else LastTouch(h, i, k - 1)
  }

  /** The ledgers that have passed since. */
  function Pending(h: History, i: nat, k: nat): int
    requires i <= k < |h|
  {
    h[k].sequence - LastTouch(h, i, k)
  }

  /** The gaps between successive touches. */
  function TouchGaps(h: History, i: nat, k: nat): seq<int>
    requires i <= k < |h|
  {
    if i == k then []
    else if h[k - 1].touched then TouchGaps(h, i, k - 1) + [Pending(h, i, k - 1)]
    else TouchGaps(h, i, k - 1)
  }

  /** All gaps, the one still open at the end included. */
  function AllGaps(h: History, i: nat, k: nat): seq<int>
    requires i <= k < |h|
  {
    TouchGaps(h, i, k) + [Pending(h, i, k)]
  }

  // ----- what follows from the rule -----

  lemma NewEntryHasFullTerm(h: History, i: nat)
    requires Lawful(h) && Born(h, i)
    ensures h[i].live == Some(h[i].sequence + TTL_EXTEND_TO)
  {
    assert LawfulStep(h[i - 1], h[i]);
  }

  /** An entry stays live for at least TTL_THRESHOLD + 1 ledgers after each touch, whether or not it was archived
      before. */
  lemma {:induction false} TouchedEntryStaysLive(h: History, i: nat, k: nat)
    requires Lawful(h) && Present(h, i, k) && h[i].live.value >= h[i].sequence + TTL_THRESHOLD + 1
    ensures h[k].live.value >= LastTouch(h, i, k) + TTL_THRESHOLD + 1
    decreases k
  {
    if i < k {
      TouchedEntryStaysLive(h, i, k - 1);
      assert LawfulStep(h[k - 1], h[k]);
    }
  }

  /** Where the live-until ledger stands while the entry has never been archived. */
  predicate OnSchedule(h: History, i: nat, k: nat)
    requires i <= k < |h|
  {
    h[k].live.Some? && h[k].live.value == LastTouch(h, i, k) + Left(TTL_EXTEND_TO, TouchGaps(h, i, k))
  }

  ghost predicate Obeys(h: History, i: nat, k: nat)
    requires i <= k < |h|
  {
    && (NeverArchived(h, i, k) <==> Survives(TTL_EXTEND_TO, AllGaps(h, i, k)))
    && (NeverArchived(h, i, k) ==> OnSchedule(h, i, k))
  }

  lemma NeverArchivedExtends(h: History, i: nat, k: nat)
    requires i < k < |h|
    ensures NeverArchived(h, i, k) <==> NeverArchived(h, i, k - 1) && LiveNow(h[k])
  {
  }

  lemma TouchObeys(h: History, i: nat, k: nat)
    requires Lawful(h) && i < k && Present(h, i, k) && h[k - 1].touched && Obeys(h, i, k - 1)
    ensures Obeys(h, i, k)
  {
    assert LawfulStep(h[k - 1], h[k]);
    NeverArchivedExtends(h, i, k);
    var gaps, gap := TouchGaps(h, i, k - 1), Pending(h, i, k - 1);
    OneMoreGap(TTL_EXTEND_TO, gaps, gap);
    OneMoreGap(TTL_EXTEND_TO, gaps + [gap], 0);
  }

  lemma IdlingObeys(h: History, i: nat, k: nat)
    requires Lawful(h) && i < k && Present(h, i, k) && !h[k - 1].touched && Obeys(h, i, k - 1)
    ensures Obeys(h, i, k)
  {
    assert LawfulStep(h[k - 1], h[k]);
    NeverArchivedExtends(h, i, k);
    var gaps := TouchGaps(h, i, k - 1);
    OneMoreGap(TTL_EXTEND_TO, gaps, Pending(h, i, k - 1));
    OneMoreGap(TTL_EXTEND_TO, gaps, Pending(h, i, k));
  }

  /** An entry is live from its creation on if and only if its gaps survive the rule. */
  lemma LifeIsDecidedByGaps(h: History, i: nat, k: nat)
    requires Lawful(h) && Born(h, i) && Present(h, i, k)
    ensures Obeys(h, i, k)
    decreases k
  {
    NewEntryHasFullTerm(h, i);
    if i == k {
      OneMoreGap(TTL_EXTEND_TO, [], 0);
      assert [] + [0] == AllGaps(h, i, i);
    } else {
      LifeIsDecidedByGaps(h, i, k - 1);
      if h[k - 1].touched {
        TouchObeys(h, i, k);
      } else {
        IdlingObeys(h, i, k);
      }
    }
  }

  /** The same, right after a touch. */
  lemma {:induction false} RestedLifeIsDecided(h: History, i: nat, k: nat)
    requires Lawful(h) && Born(h, i) && Present(h, i, k) && Pending(h, i, k) == 0
    ensures NeverArchived(h, i, k) <==> Survives(TTL_EXTEND_TO, TouchGaps(h, i, k))
  {
    LifeIsDecidedByGaps(h, i, k);
    OneMoreGap(TTL_EXTEND_TO, TouchGaps(h, i, k), 0);
    LeftIsPositive(TTL_EXTEND_TO, TouchGaps(h, i, k));
  }

  ghost predicate Untouched(h: History, i: nat, k: nat) {
    i <= k < |h| && forall j | i <= j < k :: !h[j].touched
  }

  /** A live entry that nobody touches keeps its live-until ledger and is archived as soon as the ledger passes it. */
  lemma UntouchedEntryServesItsTerm(h: History, i: nat, k: nat)
    requires Lawful(h) && Present(h, i, k) && Untouched(h, i, k) && LiveNow(h[i])
    ensures NeverArchived(h, i, k) <==> h[k].sequence <= h[i].live.value
    ensures NeverArchived(h, i, k) ==> h[k].live == h[i].live
    decreases k
  {
    if i < k {
      UntouchedEntryServesItsTerm(h, i, k - 1);
      assert LawfulStep(h[k - 1], h[k]);
      NeverArchivedExtends(h, i, k);
    }
  }

  // ----- histories that share a beginning -----

  /** Up to moment `k` the two histories look the same; what the next step does then may differ. */
  ghost predicate SameUntil(h: History, h': History, k: nat) {
    && k < |h| && k < |h'| && (forall j | 0 <= j < k :: h[j] == h'[j])
    && h[k].sequence == h'[k].sequence && h[k].live == h'[k].live
  }

  lemma {:induction false} SharedGaps(h: History, h': History, i: nat, k: nat)
    requires i <= k && SameUntil(h, h', k)
    ensures LastTouch(h, i, k) == LastTouch(h', i, k) && TouchGaps(h, i, k) == TouchGaps(h', i, k)
    ensures Present(h, i, k) <==> Present(h', i, k)
    decreases k
  {
    if i < k {
      assert h[k - 1] == h'[k - 1];
      SharedGaps(h, h', i, k - 1);
    }
  }

  lemma SharedBirth(h: History, h': History, i: nat, k: nat)
    requires i <= k && SameUntil(h, h', k) && Born(h, i)
    ensures Born(h', i)
  {
    assert h[i - 1] == h'[i - 1];
  }

  lemma AppendIdle(h: History, h': History, i: nat, n: nat)
    requires i <= n && SameUntil(h, h', n) && n + 1 < |h'| && Present(h, i, n) && !h'[n].touched && h'[n + 1].live.Some?
    ensures Present(h', i, n + 1) && TouchGaps(h', i, n + 1) == TouchGaps(h, i, n)
    ensures Pending(h', i, n + 1) == Pending(h, i, n) + h'[n + 1].sequence - h'[n].sequence
  {
    SharedGaps(h, h', i, n);
  }

  lemma AppendTouch(h: History, h': History, i: nat, n: nat)
    requires i <= n && SameUntil(h, h', n) && n + 1 < |h'| && Present(h, i, n) && h'[n].touched && h'[n + 1].live.Some?
    requires h'[n + 1].sequence == h'[n].sequence
    ensures Present(h', i, n + 1) && TouchGaps(h', i, n + 1) == TouchGaps(h, i, n) + [Pending(h, i, n)]
    ensures Pending(h', i, n + 1) == 0
  {
    SharedGaps(h, h', i, n);
  }

  /** Gaps that lose a new entry, only the last of them longer than TTL_THRESHOLD + 1 ledgers. */
  ghost predicate Fatal(gaps: seq<int>) {
    && gaps != [] && gaps[|gaps| - 1] == TTL_THRESHOLD + 2 && AllWithin(gaps[..|gaps| - 1], TTL_THRESHOLD + 1)
    && !Survives(TTL_EXTEND_TO, gaps)
  }

  lemma FatalGapsExist(remaining: nat) returns (gaps: seq<int>)
    requires remaining == TTL_EXTEND_TO
    ensures Fatal(gaps) && forall j | 0 <= j < |gaps| :: gaps[j] >= 0
  {
    gaps := Starving(remaining);
    StarvingArchives(remaining);
  }

  /** How a history that goes on from the birth of an entry decides the entry's life. */
  lemma {:induction false} GapsDecideLife(h: History, h': History, n: nat, k: nat)
    requires Lawful(h') && Born(h, n) && SameUntil(h, h', n) && Present(h', n, k) && Pending(h', n, k) == 0
    ensures NeverArchived(h', n, k) <==> Survives(TTL_EXTEND_TO, TouchGaps(h', n, k))
  {
    SharedBirth(h, h', n, n);
    RestedLifeIsDecided(h', n, k);
  }

  lemma QuickLifeGoesOn(h: History, h': History, n: nat, k: nat)
    requires Lawful(h') && Born(h, n) && SameUntil(h, h', n) && Present(h', n, k)
    requires AllWithin(AllGaps(h', n, k), TTL_THRESHOLD + 1)
    ensures NeverArchived(h', n, k)
  {
    SharedBirth(h, h', n, n);
    LifeIsDecidedByGaps(h', n, k);
    QuickVisitsSuffice(TTL_EXTEND_TO, AllGaps(h', n, k));
  }

  /** From moment `i`, where the entry has its full term, to moment `k` it has always outlived its last touch by
      TTL_THRESHOLD + 1 ledgers. */
  predicate WellRenewed(h: History, i: nat, k: nat) {
    && i <= k < |h| && h[i].live == Some(h[i].sequence + TTL_EXTEND_TO)
    && h[k].live.Some? && h[k].live.value >= LastTouch(h, i, k) + TTL_THRESHOLD + 1
  }

  lemma NewEntryIsWellRenewed(h: History, i: nat, k: nat)
    requires Lawful(h) && Born(h, i) && Present(h, i, k)
    ensures WellRenewed(h, i, k)
  {
    NewEntryHasFullTerm(h, i);
    TouchedEntryStaysLive(h, i, k);
  }
}
