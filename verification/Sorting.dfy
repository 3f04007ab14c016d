/** Python's stable `sorted`, for an order given as a function. */
module Sorting {

  function Insert<T>(x: T, sorted: seq<T>, le: (T, T) -> bool): seq<T> {
    if sorted == [] || !le(sorted[0], x) then [x] + sorted else [sorted[0]] + Insert(x, sorted[1..], le)
  }

  // Each element goes in after the earlier ones it does not precede.
  function Sort<T>(xs: seq<T>, le: (T, T) -> bool): seq<T> {
    if xs == [] then [] else Insert(xs[|xs| - 1], Sort(xs[..|xs| - 1], le), le)
  }

  ghost predicate Sorted<T>(xs: seq<T>, le: (T, T) -> bool) {
    forall i, j :: 0 <= i < j < |xs| ==> le(xs[i], xs[j])
  }

  ghost predicate TotalOrder<T(!new)>(le: (T, T) -> bool) {
    && (forall x, y :: le(x, y) || le(y, x))
    && (forall x, y, z :: le(x, y) && le(y, z) ==> le(x, z))
  }

  lemma {:induction false} InsertKeeps<T>(x: T, sorted: seq<T>, le: (T, T) -> bool)
    ensures multiset(Insert(x, sorted, le)) == multiset(sorted) + multiset{x}
  {
    if sorted != [] && le(sorted[0], x) {
      InsertKeeps(x, sorted[1..], le);
      assert sorted == [sorted[0]] + sorted[1..];
    }
  }

  // What no element precedes stays in front.
  ghost predicate Before<T>(x: T, xs: seq<T>, le: (T, T) -> bool) {
    forall y :: y in xs ==> le(x, y)
  }

  lemma ConsSorted<T>(x: T, xs: seq<T>, le: (T, T) -> bool)
    ensures Sorted([x] + xs, le) <==> Sorted(xs, le) && Before(x, xs, le)
  {
    var all := [x] + xs;
    if Sorted(all, le) {
      forall i, j | 0 <= i < j < |xs| ensures le(xs[i], xs[j]) { assert le(all[i + 1], all[j + 1]); }
      forall y | y in xs ensures le(x, y) { var k :| 0 <= k < |xs| && xs[k] == y; assert le(all[0], all[k + 1]); }
    }
  }

  lemma {:induction false} InsertSorted<T(!new)>(x: T, sorted: seq<T>, le: (T, T) -> bool)
    requires TotalOrder(le) && Sorted(sorted, le)
    ensures Sorted(Insert(x, sorted, le), le)
  {
    if sorted == [] {
    } else if !le(sorted[0], x) {
      ConsSorted(sorted[0], sorted[1..], le);
      assert sorted == [sorted[0]] + sorted[1..];
      ConsSorted(x, sorted, le);
    } else {
      var head, rest := sorted[0], Insert(x, sorted[1..], le);
      assert sorted == [head] + sorted[1..];
      ConsSorted(head, sorted[1..], le);
      InsertSorted(x, sorted[1..], le);
      InsertKeeps(x, sorted[1..], le);
      forall y | y in rest ensures le(head, y) { assert y in multiset(rest); }
      ConsSorted(head, rest, le);
    }
  }

  lemma NothingSorted<T>(le: (T, T) -> bool)
    ensures Sorted([], le)
  {
  }

  lemma {:induction false} SortFacts<T(!new)>(xs: seq<T>, le: (T, T) -> bool)
    requires TotalOrder(le)
    ensures Sorted(Sort(xs, le), le) && multiset(Sort(xs, le)) == multiset(xs)
  {
    hide Insert, Sorted, TotalOrder;
    if xs == [] {
      NothingSorted(le);
    } else {
      var n := |xs| - 1;
      SortFacts(xs[..n], le);
      InsertKeeps(xs[n], Sort(xs[..n], le), le);
      InsertSorted(xs[n], Sort(xs[..n], le), le);
      assert xs == xs[..n] + [xs[n]];
    }
  }

  // No two elements are equivalent without being equal.
  ghost predicate Antisymmetric<T>(xs: seq<T>, le: (T, T) -> bool) {
    forall x, y :: x in xs && y in xs && le(x, y) && le(y, x) ==> x == y
  }

  lemma SameHead<T>(a: seq<T>, b: seq<T>, le: (T, T) -> bool)
    requires Sorted(a, le) && Sorted(b, le) && multiset(a) == multiset(b) && a != [] && b != []
    requires Antisymmetric(a, le)
    ensures a[0] == b[0]
  {
    assert b[0] in multiset(a) && a[0] in multiset(b);
    var i :| 0 <= i < |a| && a[i] == b[0];
    var j :| 0 <= j < |b| && b[j] == a[0];
    if i > 0 && j > 0 { assert le(a[0], a[i]) && le(b[0], b[j]); }
  }

  lemma SameTail<T>(a: seq<T>, b: seq<T>)
    requires multiset(a) == multiset(b) && a != [] && b != [] && a[0] == b[0]
    ensures multiset(a[1..]) == multiset(b[1..])
  {
    assert a == [a[0]] + a[1..] && b == [b[0]] + b[1..];
    assert multiset(a[1..]) == multiset(a) - multiset{a[0]};
  }

  // Such elements sort one way only.
  lemma {:induction false} SortedUnique<T>(a: seq<T>, b: seq<T>, le: (T, T) -> bool)
    requires Sorted(a, le) && Sorted(b, le) && multiset(a) == multiset(b) && Antisymmetric(a, le)
    ensures a == b
  {
    assert |multiset(a)| == |multiset(b)|;
    if a != [] {
      SameHead(a, b, le);
      SameTail(a, b);
      SortedUnique(a[1..], b[1..], le);
      assert a == [a[0]] + a[1..] && b == [b[0]] + b[1..];
    }
  }

  function Others<T>(xs: seq<T>, j: nat): seq<T>
    requires j < |xs|
  {
    xs[..j] + xs[j + 1..]
  }

  lemma FirstRemoved<T>(s: seq<T>, t: seq<T>, j: nat)
    requires multiset(s) == multiset(t) && s != [] && j < |t| && t[j] == s[0]
    ensures multiset(s[1..]) == multiset(Others(t, j))
  {
    assert s == [s[0]] + s[1..];
    assert multiset(s[1..]) == multiset(s) - multiset{s[0]};
    assert t == t[..j] + ([t[j]] + t[j + 1..]);
    assert multiset(t) == multiset(t[..j]) + (multiset{t[j]} + multiset(t[j + 1..]));
  }

  // ----- permutations -----------------------------------------------------------------

  ghost predicate Permutation(p: seq<nat>, n: nat) {
    && |p| == n
    && (forall i :: 0 <= i < n ==> p[i] < n)
    && (forall i, j :: 0 <= i < j < n ==> p[i] != p[j])
  }

  function Without(p: seq<nat>, k: nat): seq<nat> {
    seq(|p|, i requires 0 <= i < |p| => if p[i] > k then p[i] - 1 else p[i])
  }

  lemma {:induction false} PermutedMultiset<T>(xs: seq<T>, ys: seq<T>, p: seq<nat>)
    requires |xs| == |ys| && Permutation(p, |xs|)
    requires forall i :: 0 <= i < |xs| ==> xs[i] == ys[p[i]]
    ensures multiset(xs) == multiset(ys)
  {
    if xs != [] {
      var n := |xs| - 1;
      var k := p[n];
      var rest := ys[..k] + ys[k + 1..];
      var q := Without(p[..n], k);
      forall i | 0 <= i < n
        ensures q[i] < n && xs[..n][i] == rest[q[i]]
      {
        assert p[i] != p[n];
      }
      forall i, j | 0 <= i < j < n ensures q[i] != q[j] { assert p[i] != p[j] && p[i] != p[n] && p[j] != p[n]; }
      PermutedMultiset(xs[..n], rest, q);
      assert xs == xs[..n] + [xs[n]];
      assert ys == ys[..k] + [ys[k]] + ys[k + 1..];
    }
  }

  // Two arrangements of the same elements are permutations of each other.
  lemma {:induction false} MultisetPermutes<T>(xs: seq<T>, ys: seq<T>) returns (p: seq<nat>)
    requires multiset(xs) == multiset(ys)
    ensures |xs| == |ys| && Permutation(p, |xs|)
    ensures forall i :: 0 <= i < |xs| ==> xs[i] == ys[p[i]]
  {
    assert |multiset(xs)| == |multiset(ys)|;
    if xs == [] {
      p := [];
    } else {
      assert xs[0] in multiset(ys);
      var k :| 0 <= k < |ys| && ys[k] == xs[0];
      FirstRemoved(xs, ys, k);
      var q := MultisetPermutes(xs[1..], Others(ys, k));
      p := [k] + seq(|q|, i requires 0 <= i < |q| => if q[i] < k then q[i] else q[i] + 1);
    }
  }
}
