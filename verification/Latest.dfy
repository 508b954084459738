/** The value of a stored setting is the one written last: how to say it of a whole run, and how to prove it. */
module Latest {
  import opened Shared
  import opened Ledger

  /** What a step writes to a setting, if it writes it at all. */
  type Writer<!V> = (World, Step) -> Option<V>

  /** The value written last by the first `k` steps, or `start` if none of them writes. */
  function LatestWrite<V>(steps: seq<Step>, k: nat, write: Writer<V>, start: V): V
    requires k <= |steps|
  {
    if k == 0 then start
    else
      match write(At(steps, k - 1), steps[k - 1])
      case Some(v) => v
      case None => LatestWrite(steps, k - 1, write, start)
  }

  predicate WritesAt<V>(steps: seq<Step>, j: nat, write: Writer<V>) {
    j < |steps| && write(At(steps, j), steps[j]).Some?
  }

  ghost predicate NoWrites<V>(steps: seq<Step>, i: nat, k: nat, write: Writer<V>) {
    forall j: nat | i <= j < k :: !WritesAt(steps, j, write)
  }

  /** Step `j` writes `v`, and no later one before `k` writes again. */
  ghost predicate WrittenLast<V>(steps: seq<Step>, j: nat, k: nat, write: Writer<V>, v: V) {
    j < k <= |steps| && write(At(steps, j), steps[j]) == Some(v) && NoWrites(steps, j + 1, k, write)
  }

  lemma {:induction false} FindLastWrite<V>(steps: seq<Step>, k: nat, write: Writer<V>, start: V) returns (j: nat)
    requires k <= |steps| && !NoWrites(steps, 0, k, write)
    ensures WrittenLast(steps, j, k, write, LatestWrite(steps, k, write, start))
  {
    if WritesAt(steps, k - 1, write) {
      j := k - 1;
    } else {
      j := FindLastWrite(steps, k - 1, write, start);
    }
  }

  lemma {:induction false} NoWriteLeavesStart<V>(steps: seq<Step>, k: nat, write: Writer<V>, start: V)
    requires k <= |steps| && NoWrites(steps, 0, k, write)
    ensures LatestWrite(steps, k, write, start) == start
  {
    if k > 0 {
      assert !WritesAt(steps, k - 1, write);
      NoWriteLeavesStart(steps, k - 1, write, start);
    }
  }

  /** Every step leaves in `field` what it writes, or what was there. */
  ghost predicate Follows<V(!new)>(field: World -> V, write: Writer<V>, start: V) {
    && field(GENESIS) == start
    && forall w, st :: Moves(field, write, w, st)
  }

  predicate Moves<V(==)>(field: World -> V, write: Writer<V>, w: World, st: Step) {
    field(Apply(w, st)) == match write(w, st) case Some(v) => v case None => field(w)
  }

  lemma {:induction false} FieldIsLatestWrite<V(!new)>(steps: seq<Step>, k: nat, field: World -> V, write: Writer<V>, start: V)
    requires k <= |steps| && Follows(field, write, start)
    ensures field(At(steps, k)) == LatestWrite(steps, k, write, start)
  {
    if k > 0 {
      FieldIsLatestWrite(steps, k - 1, field, write, start);
      assert Moves(field, write, At(steps, k - 1), steps[k - 1]);
    }
  }
}
