/** `lines.sort()`: the lexicographic order on strings has exactly one sorted arrangement of any bag of lines. */
module Sorting {

  predicate Leq(a: string, b: string) {
    a == "" || (b != "" && (a[0] < b[0] || (a[0] == b[0] && Leq(a[1..], b[1..]))))
  }

  lemma {:induction false} LeqTotal(a: string, b: string)
    ensures Leq(a, b) || Leq(b, a)
  {
    if a != "" && b != "" && a[0] == b[0] {
      LeqTotal(a[1..], b[1..]);
    }
  }

  lemma {:induction false} LeqAntisymmetric(a: string, b: string)
    requires Leq(a, b) && Leq(b, a)
    ensures a == b
  {
    if a != "" {
      LeqAntisymmetric(a[1..], b[1..]);
      assert a == [a[0]] + a[1..] && b == [b[0]] + b[1..];
    }
  }

  lemma {:induction false} LeqTransitive(a: string, b: string, c: string)
    requires Leq(a, b) && Leq(b, c)
    ensures Leq(a, c)
  {
    if a != "" && a[0] == b[0] == c[0] {
      LeqTransitive(a[1..], b[1..], c[1..]);
    }
  }

  ghost predicate Ordered(lines: seq<string>) {
    forall i, j | 0 <= i < j < |lines| :: Leq(lines[i], lines[j])
  }

  function Insert(line: string, lines: seq<string>): seq<string> {
    if lines == [] || Leq(line, lines[0]) then [line] + lines else [lines[0]] + Insert(line, lines[1..])
  }

  function Sort(lines: seq<string>): seq<string> {
    if lines == [] then [] else Insert(lines[0], Sort(lines[1..]))
  }

  lemma {:induction false} InsertAdds(line: string, lines: seq<string>)
    ensures multiset(Insert(line, lines)) == multiset{line} + multiset(lines)
  {
    if lines != [] && !Leq(line, lines[0]) {
      InsertAdds(line, lines[1..]);
      assert lines == [lines[0]] + lines[1..];
    }
  }

  function Without<T>(xs: seq<T>, j: nat): seq<T>
    requires j < |xs|
  {
    xs[..j] + xs[j + 1..]
  }

  lemma CountWithout<T>(xs: seq<T>, j: nat, x: T)
    requires j < |xs|
    ensures multiset(xs)[x] == multiset(Without(xs, j))[x] + if x == xs[j] then 1 else 0
  {
    assert xs == xs[..j] + [xs[j]] + xs[j + 1..];
  }

  /** Taking an equal element out of equal bags leaves equal bags. */
  lemma WithoutMatches<T(!new)>(xs: seq<T>, i: nat, ys: seq<T>, j: nat)
    requires i < |xs| && j < |ys| && xs[i] == ys[j]
    ensures multiset(xs) == multiset(ys) <==> multiset(Without(xs, i)) == multiset(Without(ys, j))
  {
    forall x: T
      ensures multiset(xs)[x] == multiset(ys)[x] <==> multiset(Without(xs, i))[x] == multiset(Without(ys, j))[x]
    {
      CountWithout(xs, i, x);
      CountWithout(ys, j, x);
    }
  }

  lemma SameLength<T>(a: seq<T>, b: seq<T>)
    requires multiset(a) == multiset(b)
    ensures |a| == |b|
  {
    assert |a| == |multiset(a)| == |multiset(b)| == |b|;
  }

  lemma SameMembers(a: seq<string>, b: seq<string>, x: string)
    requires multiset(a) == multiset(b)
    ensures x in a <==> x in b
  {
    assert x in a <==> x in multiset(a);
    assert x in b <==> x in multiset(b);
  }

  lemma {:induction false} OrderedCons(x: string, rest: seq<string>)
    requires Ordered(rest) && forall y | y in rest :: Leq(x, y)
    ensures Ordered([x] + rest)
  {
    var all := [x] + rest;
    forall i, j | 0 <= i < j < |all| ensures Leq(all[i], all[j]) {
      assert all[j] == rest[j - 1];
      if i > 0 {
        assert all[i] == rest[i - 1];
      }
    }
  }

  lemma {:induction false} InsertOrders(line: string, lines: seq<string>)
    requires Ordered(lines)
    ensures Ordered(Insert(line, lines))
  {
    if lines == [] || Leq(line, lines[0]) {
      forall y | y in lines ensures Leq(line, y) {
        var i :| 0 <= i < |lines| && lines[i] == y;
        if i > 0 {
          LeqTransitive(line, lines[0], y);
        }
      }
      OrderedCons(line, lines);
    } else {
      LeqTotal(line, lines[0]);
      var rest := Insert(line, lines[1..]);
      InsertOrders(line, lines[1..]);
      InsertAdds(line, lines[1..]);
      forall y | y in rest ensures Leq(lines[0], y) {
        SameMembers(rest, [line] + lines[1..], y);
      }
      OrderedCons(lines[0], rest);
    }
  }

  lemma {:induction false} SortSorts(lines: seq<string>)
    ensures Ordered(Sort(lines)) && multiset(Sort(lines)) == multiset(lines)
  {
    if lines != [] {
      SortSorts(lines[1..]);
      InsertOrders(lines[0], Sort(lines[1..]));
      InsertAdds(lines[0], Sort(lines[1..]));
      assert lines == [lines[0]] + lines[1..];
    }
  }

  lemma HeadsMatch(a: seq<string>, b: seq<string>)
    requires Ordered(a) && Ordered(b) && multiset(a) == multiset(b) && a != [] && b != []
    ensures a[0] == b[0]
  {
    SameMembers(a, b, a[0]);
    SameMembers(a, b, b[0]);
    var i :| 0 <= i < |b| && b[i] == a[0];
    var j :| 0 <= j < |a| && a[j] == b[0];
    if i > 0 && j > 0 {
      LeqAntisymmetric(a[0], b[0]);
    }
  }

  lemma TailsMatch(a: seq<string>, b: seq<string>)
    requires a != [] && b != [] && a[0] == b[0] && multiset(a) == multiset(b)
    ensures multiset(a[1..]) == multiset(b[1..])
  {
    WithoutMatches(a, 0, b, 0);
    assert Without(a, 0) == a[1..] && Without(b, 0) == b[1..];
  }

  lemma OrderedArrangementIsUnique(a: seq<string>, b: seq<string>)
    requires Ordered(a) && Ordered(b) && multiset(a) == multiset(b)
    ensures a == b
  {
    SameLength(a, b);
    if a != [] {
      HeadsMatch(a, b);
      TailsMatch(a, b);
      OrderedArrangementIsUnique(a[1..], b[1..]);
      assert a == [a[0]] + a[1..] && b == [b[0]] + b[1..];
    }
  }

  /** Sorted output depends on the bag of lines and on nothing else, and determines it. */
  lemma {:induction false} SortIsCanonical(a: seq<string>, b: seq<string>)
    ensures Sort(a) == Sort(b) <==> multiset(a) == multiset(b)
  {
    SortSorts(a);
    SortSorts(b);
    if multiset(a) == multiset(b) {
      OrderedArrangementIsUnique(Sort(a), Sort(b));
    }
  }

  // ----- mapping over bags -----

  function Each<T, U>(f: T -> U, xs: seq<T>): seq<U> {
    seq(|xs|, i requires 0 <= i < |xs| => f(xs[i]))
  }

  /** Equal bags have equal images. */
  lemma EachRespectsBags<T(!new), U(!new)>(f: T -> U, xs: seq<T>, ys: seq<T>)
    requires multiset(xs) == multiset(ys)
    ensures multiset(Each(f, xs)) == multiset(Each(f, ys))
    decreases |xs|
  {
    SameLength(xs, ys);
    if xs != [] {
      var x := xs[0];
      assert x in multiset(ys);
      var j :| 0 <= j < |ys| && ys[j] == x;
      WithoutMatches(xs, 0, ys, j);
      EachRespectsBags(f, Without(xs, 0), Without(ys, j));
      assert Each(f, Without(xs, 0)) == Without(Each(f, xs), 0);
      assert Each(f, Without(ys, j)) == Without(Each(f, ys), j);
      WithoutMatches(Each(f, xs), 0, Each(f, ys), j);
    }
  }
}
