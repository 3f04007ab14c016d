/** When the order a firmware serves its lists in shows in a resource's keyed leaves,
    compared as Python compares values: 1 and 1.0 alike. */
module SecurityOrder {
  import opened Json
  import opened Lex
  import opened Payload
  import opened Sorting
  import opened SecurityLeaves
  import opened SecuritySpellings

  // ----- sorted lists, up to the meaning of their elements ---------------------------------

  lemma MeaningsCons(x: Json, rest: seq<Json>)
    ensures MeaningItems([x] + rest) == [Meaning(x)] + MeaningItems(rest)
  {
    assert ([x] + rest)[1..] == rest;
  }

  lemma {:induction false} MeaningsAt(xs: seq<Json>, i: nat)
    requires i < |xs|
    ensures MeaningItems(xs)[i] == Meaning(xs[i])
  {
    if i > 0 { MeaningsAt(xs[1..], i - 1); }
  }

  lemma MeaningsAlike(xs: seq<Json>, ys: seq<Json>)
    requires |xs| == |ys| && forall i :: 0 <= i < |xs| ==> Meaning(xs[i]) == Meaning(ys[i])
    ensures MeaningItems(xs) == MeaningItems(ys)
  {
    hide Meaning, MeaningItems;
    forall i | 0 <= i < |xs| ensures MeaningItems(xs)[i] == MeaningItems(ys)[i] {
      MeaningsAt(xs, i);
      MeaningsAt(ys, i);
    }
  }

  // Elements no order tells apart mean the same.
  ghost predicate TiesAlike(xs: seq<Json>, le: (Json, Json) -> bool) {
    forall x, y :: x in xs && y in xs && le(x, y) && le(y, x) ==> Meaning(x) == Meaning(y)
  }

  lemma WithoutSorted(t: seq<Json>, j: nat, le: (Json, Json) -> bool)
    requires Sorting.Sorted(t, le) && j < |t|
    ensures Sorting.Sorted(Others(t, j), le)
  {
    var rest := Others(t, j);
    forall k, l | 0 <= k < l < |rest| ensures le(rest[k], rest[l]) {
      assert rest[k] == t[if k < j then k else k + 1] && rest[l] == t[if l < j then l else l + 1];
    }
  }

  // Two sorted arrangements of the same elements agree up to ties.
  lemma {:induction false} SortedUpToTies(s: seq<Json>, t: seq<Json>, le: (Json, Json) -> bool, i: nat)
    requires TotalOrder(le) && Sorting.Sorted(s, le) && Sorting.Sorted(t, le)
    requires multiset(s) == multiset(t) && i < |s|
    ensures |s| == |t| && le(s[i], t[i]) && le(t[i], s[i])
  {
    hide TotalOrder, Sorting.Sorted;
    assert |multiset(s)| == |multiset(t)|;
    assert s[0] in multiset(t) && t[0] in multiset(s);
    var j :| 0 <= j < |t| && t[j] == s[0];
    var k :| 0 <= k < |s| && s[k] == t[0];
    InOrder(s, k, le);
    InOrder(t, j, le);
    if i > 0 {
      FirstRemoved(s, t, j);
      WithoutSorted(t, j, le);
      TailSorted(s, le);
      SortedUpToTies(s[1..], Others(t, j), le, i - 1);
      if i <= j { TiesUpTo(s[i], t, i, j, le); }
    }
  }

  lemma InOrder(t: seq<Json>, j: nat, le: (Json, Json) -> bool)
    requires TotalOrder(le) && Sorting.Sorted(t, le) && j < |t|
    ensures le(t[0], t[j])
  {
  }

  // Up to the position `j` of an element that ties with the first, all elements tie.
  lemma TiesUpTo(x: Json, t: seq<Json>, i: nat, j: nat, le: (Json, Json) -> bool)
    requires TotalOrder(le) && Sorting.Sorted(t, le) && 0 < i <= j < |t| && le(t[j], t[0])
    requires le(x, t[i - 1]) && le(t[i - 1], x)
    ensures le(x, t[i]) && le(t[i], x)
  {
    assert le(t[i - 1], t[i]);
    assert i < j ==> le(t[i], t[j]);
    assert i > 1 ==> le(t[0], t[i - 1]);
    assert le(t[i], t[0]);
  }

  lemma SortMeaning(a: seq<Json>, b: seq<Json>, le: (Json, Json) -> bool)
    requires TotalOrder(le) && multiset(a) == multiset(b) && TiesAlike(a, le)
    ensures MeaningItems(Sort(a, le)) == MeaningItems(Sort(b, le))
  {
    hide Sort, Meaning, MeaningItems;
    SortFacts(a, le);
    SortFacts(b, le);
    var s, t := Sort(a, le), Sort(b, le);
    assert |multiset(s)| == |multiset(t)|;
    forall i | 0 <= i < |s| ensures Meaning(s[i]) == Meaning(t[i]) {
      SortedUpToTies(s, t, le, i);
      assert s[i] in multiset(s) && t[i] in multiset(t);
      assert s[i] in a && t[i] in a by { assert s[i] in multiset(a) && t[i] in multiset(a); }
    }
    MeaningsAlike(s, t);
  }

  // An element put before everything that means something else.
  lemma {:induction false} InsertedFirst(z: Json, sorted: seq<Json>, le: (Json, Json) -> bool)
    requires forall y :: y in sorted && Meaning(y) != Meaning(z) ==> !le(y, z)
    ensures MeaningItems(Insert(z, sorted, le)) == [Meaning(z)] + MeaningItems(sorted)
  {
    hide Meaning, MeaningItems;
    if sorted == [] || !le(sorted[0], z) {
      MeaningsCons(z, sorted);
    } else {
      var rest := sorted[1..];
      assert sorted == [sorted[0]] + rest;
      InsertedFirst(z, rest, le);
      MeaningsCons(sorted[0], rest);
      MeaningsCons(sorted[0], Insert(z, rest, le));
    }
  }

  lemma NoneBefore(x: Json, sorted: seq<Json>, le: (Json, Json) -> bool)
    requires TotalOrder(le) && Sorting.Sorted(sorted, le) && sorted != [] && !le(sorted[0], x)
    ensures forall y :: y in sorted ==> !le(y, x)
  {
    forall y | y in sorted ensures !le(y, x) {
      var k :| 0 <= k < |sorted| && sorted[k] == y;
      assert k > 0 ==> le(sorted[0], sorted[k]);
    }
  }

  lemma TailSorted(sorted: seq<Json>, le: (Json, Json) -> bool)
    requires Sorting.Sorted(sorted, le) && sorted != []
    ensures Sorting.Sorted(sorted[1..], le)
  {
    assert forall i :: 0 <= i < |sorted| - 1 ==> sorted[1..][i] == sorted[i + 1];
  }

  // Two spellings of one element go in alike, if whatever means something else stands to
  // both on the same side.
  lemma {:induction false} InsertedAlike(x: Json, z: Json, sorted: seq<Json>, le: (Json, Json) -> bool)
    requires TotalOrder(le) && Sorting.Sorted(sorted, le) && Meaning(x) == Meaning(z)
    requires forall y :: y in sorted && Meaning(y) != Meaning(x) ==> (le(y, x) <==> le(y, z))
    ensures MeaningItems(Insert(x, sorted, le)) == MeaningItems(Insert(z, sorted, le))
  {
    hide Meaning, MeaningItems, Sorting.Sorted, TotalOrder;
    if sorted == [] {
      MeaningsCons(x, sorted);
      MeaningsCons(z, sorted);
    } else if !le(sorted[0], x) {
      NoneBefore(x, sorted, le);
      InsertedFirst(x, sorted, le);
      InsertedFirst(z, sorted, le);
    } else if !le(sorted[0], z) {
      NoneBefore(z, sorted, le);
      InsertedFirst(x, sorted, le);
      InsertedFirst(z, sorted, le);
    } else {
      var rest := sorted[1..];
      TailSorted(sorted, le);
      InsertedAlike(x, z, rest, le);
      MeaningsCons(sorted[0], Insert(x, rest, le));
      MeaningsCons(sorted[0], Insert(z, rest, le));
    }
  }

  // Something else comes before it: then it does not come out first.
  lemma {:induction false} NotInsertedFirst(x: Json, y: Json, sorted: seq<Json>, le: (Json, Json) -> bool)
    requires TotalOrder(le) && Sorting.Sorted(sorted, le)
    requires y in sorted && Meaning(y) != Meaning(x) && le(y, x)
    ensures MeaningItems(Insert(x, sorted, le)) != [Meaning(x)] + MeaningItems(sorted)
  {
    hide Meaning, MeaningItems, Sorting.Sorted, TotalOrder;
    if !le(sorted[0], x) {
      NoneBefore(x, sorted, le);
    } else {
      var rest := sorted[1..];
      assert sorted == [sorted[0]] + rest;
      MeaningsCons(sorted[0], Insert(x, rest, le));
      MeaningsCons(sorted[0], rest);
      if MeaningItems(Insert(x, sorted, le)) == [Meaning(x)] + MeaningItems(sorted) {
        var whole := MeaningItems(Insert(x, sorted, le));
        assert whole[0] == Meaning(x) && whole[1..] == MeaningItems(sorted) == MeaningItems(Insert(x, rest, le));
        assert Meaning(sorted[0]) == Meaning(x) && y in rest;
        TailSorted(sorted, le);
        NotInsertedFirst(x, y, rest, le);
      }
    }
  }

  // An element that passes another one that means something else shows.
  lemma {:induction false} InsertedApart(x: Json, z: Json, y: Json, sorted: seq<Json>, le: (Json, Json) -> bool)
    requires TotalOrder(le) && Sorting.Sorted(sorted, le) && Meaning(x) == Meaning(z)
    requires y in sorted && Meaning(y) != Meaning(x) && le(y, x) && !le(y, z)
    ensures MeaningItems(Insert(x, sorted, le)) != MeaningItems(Insert(z, sorted, le))
  {
    hide Meaning, MeaningItems, Sorting.Sorted, TotalOrder;
    var rest := sorted[1..];
    assert sorted == [sorted[0]] + rest;
    if !le(sorted[0], z) {
      MeaningsCons(z, sorted);
      NotInsertedFirst(x, y, sorted, le);
    } else if !le(sorted[0], x) {
      NoneBefore(x, sorted, le);
    } else {
      TailSorted(sorted, le);
      InsertedApart(x, z, y, rest, le);
      MeaningsCons(sorted[0], Insert(x, rest, le));
      MeaningsCons(sorted[0], Insert(z, rest, le));
      var a, b := Insert(x, rest, le), Insert(z, rest, le);
      assert ([Meaning(sorted[0])] + MeaningItems(a))[1..] == MeaningItems(a);
      assert ([Meaning(sorted[0])] + MeaningItems(b))[1..] == MeaningItems(b);
    }
  }

  // A sorted list is the rest, sorted, with any one element put in.
  lemma SortByInserting(xs: seq<Json>, k: nat, le: (Json, Json) -> bool)
    requires TotalOrder(le) && k < |xs| && TiesAlike(xs, le)
    ensures MeaningItems(Sort(xs, le)) == MeaningItems(Insert(xs[k], Sort(Others(xs, k), le), le))
  {
    hide Meaning, MeaningItems, TotalOrder, TiesAlike, Sort, Insert, Others;
    MovedLast(xs, k);
    SortMeaning(xs, Others(xs, k) + [xs[k]], le);
    SortSnoc(Others(xs, k), xs[k], le);
  }

  lemma MovedLast<T>(xs: seq<T>, k: nat)
    requires k < |xs|
    ensures multiset(xs) == multiset(Others(xs, k) + [xs[k]])
  {
    assert xs == xs[..k] + [xs[k]] + xs[k + 1..];
  }

  lemma SortSnoc(xs: seq<Json>, x: Json, le: (Json, Json) -> bool)
    ensures Sort(xs + [x], le) == Insert(x, Sort(xs, le), le)
  {
    hide Insert;
    assert (xs + [x])[..|xs|] == xs;
  }

  lemma OthersSorted(xs: seq<Json>, k: nat, le: (Json, Json) -> bool)
    requires TotalOrder(le) && k < |xs|
    ensures Sorting.Sorted(Sort(Others(xs, k), le), le)
    ensures forall y :: y in Sort(Others(xs, k), le) <==> exists j :: 0 <= j < |xs| && j != k && xs[j] == y
  {
    hide Sort;
    var rest := Others(xs, k);
    SortFacts(rest, le);
    var sorted := Sort(rest, le);
    forall y ensures y in sorted <==> exists j :: 0 <= j < |xs| && j != k && xs[j] == y {
      assert y in sorted <==> y in multiset(sorted);
      assert y in rest <==> y in multiset(rest);
      if y in rest {
        var i :| 0 <= i < |rest| && rest[i] == y;
        var j := if i < k then i else i + 1;
        assert xs[j] == y;
      }
      if j :| 0 <= j < |xs| && j != k && xs[j] == y {
        assert rest[if j < k then j else j - 1] == y;
      }
    }
  }

  // Whatever means something else stands to both on the same side.
  ghost predicate SameSide(xs: seq<Json>, k: nat, z: Json, le: (Json, Json) -> bool)
    requires k < |xs|
  {
    forall j :: 0 <= j < |xs| && j != k && Meaning(xs[j]) != Meaning(xs[k]) ==> (le(xs[j], xs[k]) <==> le(xs[j], z))
  }

  lemma RespelledAlike(xs: seq<Json>, k: nat, z: Json, le: (Json, Json) -> bool)
    requires TotalOrder(le) && k < |xs| && Meaning(z) == Meaning(xs[k])
    requires TiesAlike(xs, le) && TiesAlike(xs[k := z], le) && SameSide(xs, k, z, le)
    ensures MeaningItems(Sort(xs, le)) == MeaningItems(Sort(xs[k := z], le))
  {
    hide Meaning, MeaningItems, TotalOrder, Sort, Insert, TiesAlike;
    assert Others(xs[k := z], k) == Others(xs, k);
    SortByInserting(xs, k, le);
    SortByInserting(xs[k := z], k, le);
    OthersSorted(xs, k, le);
    InsertedAlike(xs[k], z, Sort(Others(xs, k), le), le);
  }

  lemma RespelledApart(xs: seq<Json>, k: nat, j: nat, z: Json, le: (Json, Json) -> bool)
    requires TotalOrder(le) && k < |xs| && j < |xs| && j != k && Meaning(z) == Meaning(xs[k])
    requires TiesAlike(xs, le) && TiesAlike(xs[k := z], le)
    requires Meaning(xs[j]) != Meaning(xs[k]) && le(xs[j], xs[k]) != le(xs[j], z)
    ensures MeaningItems(Sort(xs, le)) != MeaningItems(Sort(xs[k := z], le))
  {
    hide Meaning, MeaningItems, TotalOrder, Sort, Insert, TiesAlike;
    assert Others(xs[k := z], k) == Others(xs, k);
    SortByInserting(xs, k, le);
    SortByInserting(xs[k := z], k, le);
    OthersSorted(xs, k, le);
    var rest := Sort(Others(xs, k), le);
    if le(xs[j], xs[k]) {
      InsertedApart(xs[k], z, xs[j], rest, le);
    } else {
      InsertedApart(z, xs[k], xs[j], rest, le);
    }
  }

  // ----- what a list means, in no order ----------------------------------------------------

  lemma {:induction false} MeaningsOfSame(a: seq<Json>, b: seq<Json>)
    requires multiset(a) == multiset(b)
    ensures multiset(MeaningItems(a)) == multiset(MeaningItems(b))
  {
    hide Meaning, MeaningItems;
    if a == [] {
      assert |multiset(b)| == 0;
      assert b == [];
    } else {
      assert a[0] in multiset(b);
      var j :| 0 <= j < |b| && b[j] == a[0];
      FirstRemoved(a, b, j);
      MeaningsOfSame(a[1..], Others(b, j));
      assert a == [a[0]] + a[1..];
      MeaningsCons(a[0], a[1..]);
      MeaningsWithout(b, j);
    }
  }

  lemma MeaningsWithout(b: seq<Json>, j: nat)
    requires j < |b|
    ensures multiset(MeaningItems(b)) == multiset([Meaning(b[j])] + MeaningItems(Others(b, j)))
  {
    hide Meaning, MeaningItems;
    var before, after := b[..j], b[j + 1..];
    assert b == before + ([b[j]] + after);
    MeaningsAround(before, b[j], after);
    MovedFirst(MeaningItems(before), Meaning(b[j]), MeaningItems(after));
  }

  lemma MeaningsAround(before: seq<Json>, x: Json, after: seq<Json>)
    ensures MeaningItems(before + ([x] + after)) == MeaningItems(before) + ([Meaning(x)] + MeaningItems(after))
    ensures MeaningItems(before + after) == MeaningItems(before) + MeaningItems(after)
  {
    hide Meaning, MeaningItems;
    MeaningsJoined(before, [x] + after);
    MeaningsCons(x, after);
    MeaningsJoined(before, after);
  }

  lemma MovedFirst<T>(before: seq<T>, x: T, after: seq<T>)
    ensures multiset(before + ([x] + after)) == multiset([x] + (before + after))
  {
  }

  lemma MeaningsJoined(a: seq<Json>, b: seq<Json>)
    ensures MeaningItems(a + b) == MeaningItems(a) + MeaningItems(b)
  {
    hide Meaning, MeaningItems;
    forall i | 0 <= i < |a| + |b| ensures MeaningItems(a + b)[i] == (MeaningItems(a) + MeaningItems(b))[i] {
      MeaningsAt(a + b, i);
      if i < |a| { MeaningsAt(a, i); } else { MeaningsAt(b, i - |a|); }
    }
  }

  // One element of another meaning changes what the list means, in whatever order.
  lemma MeaningChanges(xs: seq<Json>, k: nat, z: Json, s: seq<Json>, t: seq<Json>)
    requires k < |xs| && Meaning(z) != Meaning(xs[k])
    requires multiset(s) == multiset(xs) && multiset(t) == multiset(xs[k := z])
    ensures MeaningItems(s) != MeaningItems(t)
  {
    hide Meaning, MeaningItems;
    var before, after := MeaningItems(xs), MeaningItems(xs[k := z]);
    forall i | 0 <= i < |xs| ensures after[i] == before[k := Meaning(z)][i] {
      MeaningsAt(xs, i);
      MeaningsAt(xs[k := z], i);
    }
    assert after == before[k := Meaning(z)];
    MeaningsAt(xs, k);
    MultisetChanges(before, k, Meaning(z));
    MeaningsOfSame(s, xs);
    MeaningsOfSame(t, xs[k := z]);
  }

  // ----- what a value means whatever the order of its lists ---------------------------------

  function ValueMeaning(v: Json, r: Reader): Json { Meaning(SecurityValue(v, r)) }

  // The list is neither all text nor all numbers, so it is sorted by how its values print.
  predicate Structured(items: seq<Json>, r: Reader) {
    !AllText(ValueItems(items, r)) && !AllNumbers(ValueItems(items, r))
  }

  predicate PrintsFirst(x: Json, y: Json, r: Reader) { Le(Print(x, r), Print(y, r)) }

  // Two items that differ print the one before the other, whatever the order of the lists
  // inside them: a finite number of spellings to compare.
  predicate KeepOrder(x: Json, y: Json, r: Reader) {
    ValueMeaning(x, r) != ValueMeaning(y, r) ==> PrintApart(x, y, r)
  }

  ghost predicate OrderKept(x: Json, y: Json, r: Reader) {
    ValueMeaning(x, r) != ValueMeaning(y, r) ==>
      forall x', y' :: Permuted(x, x') && Permuted(y, y') ==> (PrintsFirst(x', y', r) <==> PrintsFirst(x, y, r))
  }

  lemma KeepOrderExactly(x: Json, y: Json, r: Reader)
    ensures KeepOrder(x, y, r) <==> OrderKept(x, y, r)
  {
    hide Permuted, Print, PrintApart, ValueMeaning;
    PrintApartExactly(x, y, r);
  }

  // In every list sorted by print, items that differ keep their order in print.
  predicate Settled(v: Json, r: Reader)
    decreases v, 1
  {
    match v
    case Dict(fields) => SettledFields(fields, r)
    case List(items) =>
      && (forall i :: 0 <= i < |items| ==> Settled(items[i], r))
      && (Structured(items, r) ==> ItemsKeepOrder(items, r))
    case _ => true
  }

  predicate SettledFields(fields: seq<Field>, r: Reader)
    decreases fields, 0
  {
    forall i :: 0 <= i < |fields| ==> Skipped(fields[i].key, fields[i].value, r.rules) || Settled(fields[i].value, r)
  }

  predicate ItemsKeepOrder(items: seq<Json>, r: Reader) {
    forall i, j :: 0 <= i < |items| && 0 <= j < |items| && i != j ==> KeepOrder(items[i], items[j], r)
  }

  lemma {:induction false} PermutedPrinted(a: Json, b: Json, worth: string -> real)
    requires Permuted(a, b) && Printed(a, worth)
    ensures Printed(b, worth)
    decreases a
  {
    match (a, b)
    case (Dict(fa), Dict(fb)) =>
      forall i | 0 <= i < |fb| ensures Printed(fb[i].value, worth) { PermutedPrinted(fa[i].value, fb[i].value, worth); }
    case (List(ia), List(ib)) =>
      var p :| Permutation(p, |ia|) && forall i :: 0 <= i < |ia| ==> Permuted(ia[i], ib[p[i]]);
      forall j | 0 <= j < |ib| ensures Printed(ib[j], worth) {
        var i := PermutationHits(p, |ia|, j);
        PermutedPrinted(ia[i], ib[j], worth);
      }
    case _ =>
  }

  lemma KindOfValue(a: Json, b: Json, r: Reader)
    requires Permuted(a, b)
    ensures var (x, y) := (SecurityValue(a, r), SecurityValue(b, r));
      x.Str? == y.Str? && x.Num? == y.Num? && (x.Str? || x.Num? ==> x == y)
  {
  }

  lemma ReprIsTotal(r: Reader)
    ensures TotalOrder(ByRepr(r))
  {
    OrdersAreTotal(r);
  }

  lemma ReprTies(xs: seq<Json>, r: Reader)
    requires Faithful(r) && AllPrinted(xs, r.worth)
    ensures TiesAlike(xs, ByRepr(r))
  {
    OrdersDistinguish(xs, r);
  }

  // Lists that hold the same elements, up to spelling, item by item.
  lemma ScalarsAlike(x: seq<Json>, y: seq<Json>, z: seq<Json>, r: Reader)
    requires AllText(x) || AllNumbers(x)
    requires |x| == |z| && multiset(z) == multiset(y)
    requires forall i :: 0 <= i < |x| ==> x[i] == z[i]
    ensures MeaningItems(SecuritySorted(x, r)) == MeaningItems(SecuritySorted(y, r))
  {
    hide MeaningItems, Sort;
    assert x == z;
    SameElements(x, y);
    OrdersAreTotal(r);
    forall a, b | Le(a, b) && Le(b, a) ensures a == b { LeAntisymmetric(a, b); }
    if AllText(x) {
      SortMeaning(x, y, ByText);
    } else {
      SortMeaning(x, y, ByNumber);
    }
  }

  // The first `k` elements as they stand in `z`, the others as they stand in `x`.
  function Mixed(x: seq<Json>, z: seq<Json>, k: nat): (mixed: seq<Json>)
    requires |x| == |z| && k <= |x|
    ensures |mixed| == |x|
  {
    z[..k] + x[k..]
  }

  lemma {:induction false} RespelledOneByOne(x: seq<Json>, z: seq<Json>, k: nat, r: Reader)
    requires Faithful(r) && AllPrinted(x, r.worth) && AllPrinted(z, r.worth)
    requires |x| == |z| && k <= |x|
    requires forall i :: 0 <= i < |x| ==> Meaning(x[i]) == Meaning(z[i])
    requires forall i: nat :: i < |x| ==> SameSide(Mixed(x, z, i), i, z[i], ByRepr(r))
    ensures MeaningItems(Sort(x, ByRepr(r))) == MeaningItems(Sort(Mixed(x, z, k), ByRepr(r)))
  {
    hide Meaning, MeaningItems, Sort, SameSide, ByRepr, Faithful, Printed, Mixed;
    if k == 0 {
      MixedSteps(x, z, 0);
    } else {
      RespelledOneByOne(x, z, k - 1, r);
      var before := Mixed(x, z, k - 1);
      MixedSteps(x, z, k - 1);
      assert SameSide(before, k - 1, z[k - 1], ByRepr(r));
      MixedPrinted(x, z, k - 1, r);
      MixedPrinted(x, z, k, r);
      ReprTies(before, r);
      ReprTies(Mixed(x, z, k), r);
      ReprIsTotal(r);
      RespelledAlike(before, k - 1, z[k - 1], ByRepr(r));
    }
  }

  lemma MixedSteps(x: seq<Json>, z: seq<Json>, k: nat)
    requires |x| == |z| && k <= |x|
    ensures k == 0 ==> Mixed(x, z, 0) == x
    ensures k < |x| ==> Mixed(x, z, k)[k] == x[k] && Mixed(x, z, k)[k := z[k]] == Mixed(x, z, k + 1)
  {
  }

  lemma MixedPrinted(x: seq<Json>, z: seq<Json>, k: nat, r: Reader)
    requires |x| == |z| && k <= |x| && AllPrinted(x, r.worth) && AllPrinted(z, r.worth)
    ensures AllPrinted(Mixed(x, z, k), r.worth)
  {
  }

  // Items that keep their order in print, some respelled: the next one may be respelled too.
  lemma MixedSameSide(a: seq<Json>, b: seq<Json>, x: seq<Json>, z: seq<Json>, k: nat, r: Reader)
    requires |a| == |b| == |x| == |z| && k < |a| && ItemsKeepOrder(a, r)
    requires forall i :: 0 <= i < |a| ==> Permuted(a[i], b[i]) && ValueMeaning(a[i], r) == ValueMeaning(b[i], r)
    requires forall i :: 0 <= i < |a| ==> x[i] == SecurityValue(a[i], r) && z[i] == SecurityValue(b[i], r)
    ensures SameSide(Mixed(x, z, k), k, z[k], ByRepr(r))
  {
    hide Permuted, SecurityValue, Meaning, KeepOrder;
    var mixed := Mixed(x, z, k);
    assert mixed[k] == x[k];
    forall j | 0 <= j < |a| && j != k && Meaning(mixed[j]) != Meaning(mixed[k])
      ensures ByRepr(r)(mixed[j], mixed[k]) <==> ByRepr(r)(mixed[j], z[k])
    {
      var other := if j < k then b[j] else a[j];
      assert mixed[j] == SecurityValue(other, r);
      PermutedReflexive(a[j]);
      PermutedReflexive(a[k]);
      KeepOrderExactly(a[j], a[k], r);
      assert OrderKept(a[j], a[k], r);
      assert Permuted(a[j], other) && Permuted(a[k], b[k]) && Permuted(a[k], a[k]);
      assert PrintsFirst(other, a[k], r) <==> PrintsFirst(a[j], a[k], r);
      assert PrintsFirst(other, b[k], r) <==> PrintsFirst(a[j], a[k], r);
    }
  }

  lemma {:induction false} SettledKeepsMeaning(a: Json, b: Json, r: Reader)
    requires Permuted(a, b) && Settled(a, r) && Faithful(r) && Printed(a, r.worth)
    ensures ValueMeaning(a, r) == ValueMeaning(b, r)
    decreases a, 1
  {
    match (a, b)
    case (Dict(fa), Dict(fb)) =>
      SettledFieldsKeepMeaning(fa, fb, r);
      SortedFieldsAlike(ValueFields(fa, r), ValueFields(fb, r));
      FieldMeaningsAlike(Sort(ValueFields(fa, r), ByKey), Sort(ValueFields(fb, r), ByKey));
    case (List(ia), List(ib)) => SettledItemsKeepMeaning(ia, ib, r);
    case _ =>
  }

  lemma {:induction false} SettledItemsKeepMeaning(a: seq<Json>, b: seq<Json>, r: Reader)
    requires Permuted(List(a), List(b)) && Settled(List(a), r) && Faithful(r) && Printed(List(a), r.worth)
    ensures MeaningItems(SecuritySorted(ValueItems(a, r), r)) == MeaningItems(SecuritySorted(ValueItems(b, r), r))
    decreases a, 1
  {
    var p :| Permutation(p, |a|) && forall i :: 0 <= i < |a| ==> Permuted(a[i], b[p[i]]);
    var there := seq(|a|, i requires 0 <= i < |a| => b[p[i]]);
    PermutedPrinted(List(a), List(b), r.worth);
    ThereIsPrinted(b, p, there, r);
    ThereSorts(b, p, there, r);
    AlignedKeepMeaning(a, there, r);
  }

  // A rearranged list sorts to the same meanings as the one it came from.
  lemma ThereSorts(b: seq<Json>, p: seq<nat>, there: seq<Json>, r: Reader)
    requires Permutation(p, |b|) && |there| == |b| && Faithful(r) && AllPrinted(ValueItems(there, r), r.worth)
    requires forall i :: 0 <= i < |b| ==> there[i] == b[p[i]]
    ensures MeaningItems(SecuritySorted(ValueItems(there, r), r)) == MeaningItems(SecuritySorted(ValueItems(b, r), r))
  {
    hide Sort, MeaningItems, Meaning, SecurityValue;
    var z, y := ValueItems(there, r), ValueItems(b, r);
    forall i | 0 <= i < |b| ensures z[i] == y[p[i]] {
      ValueItemsAt(there, r, i);
      ValueItemsAt(b, r, p[i]);
    }
    PermutedMultiset(z, y, p);
    if AllText(z) || AllNumbers(z) {
      ScalarsAlike(z, y, z, r);
    } else {
      SameElements(z, y);
      ReprIsTotal(r);
      ReprTies(z, r);
      SortMeaning(z, y, ByRepr(r));
    }
  }

  // Lists whose items are rearranged within, each in its place.
  lemma {:induction false} AlignedKeepMeaning(a: seq<Json>, there: seq<Json>, r: Reader)
    requires Settled(List(a), r) && Faithful(r) && Printed(List(a), r.worth)
    requires |a| == |there| && forall i :: 0 <= i < |a| ==> Permuted(a[i], there[i])
    ensures MeaningItems(SecuritySorted(ValueItems(a, r), r)) == MeaningItems(SecuritySorted(ValueItems(there, r), r))
    decreases a, 0
  {
    hide Sort, MeaningItems, Meaning, SecurityValue, ItemsKeepOrder, Permuted, Printed, Settled;
    var x, z := ValueItems(a, r), ValueItems(there, r);
    forall i | 0 <= i < |a|
      ensures x[i] == SecurityValue(a[i], r) && z[i] == SecurityValue(there[i], r)
      ensures Meaning(x[i]) == Meaning(z[i])
      ensures x[i].Str? == z[i].Str? && x[i].Num? == z[i].Num? && (x[i].Str? || x[i].Num? ==> x[i] == z[i])
    {
      ValueItemsAt(a, r, i);
      ValueItemsAt(there, r, i);
      ItemPrinted(a, i, r);
      ItemSettled(a, i, r);
      SettledKeepsMeaning(a[i], there[i], r);
      KindOfValue(a[i], there[i], r);
    }
    if AllText(x) || AllNumbers(x) {
      ScalarsStay(x, z);
      assert x == z;
    } else {
      StructuredStays(x, z);
      ItemSettled(a, 0, r);
      StructuredAlike(a, there, x, z, r);
    }
  }

  lemma ItemSettled(a: seq<Json>, i: nat, r: Reader)
    requires Settled(List(a), r)
    ensures i < |a| ==> Settled(a[i], r)
    ensures Structured(a, r) ==> ItemsKeepOrder(a, r)
  {
  }

  lemma ThereIsPrinted(b: seq<Json>, p: seq<nat>, there: seq<Json>, r: Reader)
    requires Permutation(p, |b|) && |there| == |b| && Printed(List(b), r.worth)
    requires forall i :: 0 <= i < |b| ==> there[i] == b[p[i]]
    ensures Printed(List(there), r.worth) && AllPrinted(ValueItems(there, r), r.worth)
  {
    assert Printed(List(there), r.worth);
    ValuesPrinted(there, r);
  }

  lemma ScalarsStay(x: seq<Json>, z: seq<Json>)
    requires AllText(x) || AllNumbers(x)
    requires |x| == |z| && forall i :: 0 <= i < |x| ==> (x[i].Str? || x[i].Num? ==> x[i] == z[i])
    ensures forall i :: 0 <= i < |x| ==> x[i] == z[i]
  {
    forall i | 0 <= i < |x| ensures x[i] == z[i] { assert x[i] in x; }
  }

  lemma StructuredStays(x: seq<Json>, z: seq<Json>)
    requires !AllText(x) && !AllNumbers(x)
    requires |x| == |z| && forall i :: 0 <= i < |x| ==> x[i].Str? == z[i].Str? && x[i].Num? == z[i].Num?
    ensures !AllText(z) && !AllNumbers(z)
  {
    var v :| v in x && !v.Str?;
    var i :| 0 <= i < |x| && x[i] == v;
    assert z[i] in z;
    var w :| w in x && !w.Num?;
    var j :| 0 <= j < |x| && x[j] == w;
    assert z[j] in z;
  }

  lemma StructuredAlike(a: seq<Json>, there: seq<Json>, x: seq<Json>, z: seq<Json>, r: Reader)
    requires |a| == |there| == |x| == |z| && Faithful(r) && Printed(List(a), r.worth)
    requires forall i :: 0 <= i < |a| ==> Permuted(a[i], there[i])
    requires forall i :: 0 <= i < |a| ==> x[i] == SecurityValue(a[i], r) && z[i] == SecurityValue(there[i], r)
    requires forall i :: 0 <= i < |a| ==> Meaning(x[i]) == Meaning(z[i])
    requires ItemsKeepOrder(a, r)
    ensures MeaningItems(Sort(x, ByRepr(r))) == MeaningItems(Sort(z, ByRepr(r)))
  {
    hide Sort, MeaningItems, Meaning, SecurityValue, ItemsKeepOrder, Permuted, Printed, SameSide, Faithful, Mixed,
         ByRepr;
    AlignedPrinted(a, there, x, z, r);
    assert forall i :: 0 <= i < |a| ==> ValueMeaning(a[i], r) == ValueMeaning(there[i], r);
    AllSameSide(a, there, x, z, r);
    RespelledOneByOne(x, z, |x|, r);
    MixedWhole(x, z);
  }

  lemma AllSameSide(a: seq<Json>, b: seq<Json>, x: seq<Json>, z: seq<Json>, r: Reader)
    requires |a| == |b| == |x| == |z| && ItemsKeepOrder(a, r)
    requires forall i :: 0 <= i < |a| ==> Permuted(a[i], b[i]) && ValueMeaning(a[i], r) == ValueMeaning(b[i], r)
    requires forall i :: 0 <= i < |a| ==> x[i] == SecurityValue(a[i], r) && z[i] == SecurityValue(b[i], r)
    ensures forall i: nat :: i < |x| ==> SameSide(Mixed(x, z, i), i, z[i], ByRepr(r))
  {
    hide SecurityValue, ValueMeaning, ItemsKeepOrder, Permuted, SameSide, Mixed, ByRepr;
    forall i: nat | i < |x| ensures SameSide(Mixed(x, z, i), i, z[i], ByRepr(r)) {
      MixedSameSide(a, b, x, z, i, r);
    }
  }

  lemma MixedWhole(x: seq<Json>, z: seq<Json>)
    requires |x| == |z|
    ensures Mixed(x, z, |x|) == z
  {
  }

  lemma AlignedPrinted(a: seq<Json>, there: seq<Json>, x: seq<Json>, z: seq<Json>, r: Reader)
    requires |a| == |there| == |x| == |z| && Printed(List(a), r.worth)
    requires forall i :: 0 <= i < |a| ==> Permuted(a[i], there[i])
    requires forall i :: 0 <= i < |a| ==> x[i] == SecurityValue(a[i], r) && z[i] == SecurityValue(there[i], r)
    ensures AllPrinted(x, r.worth) && AllPrinted(z, r.worth)
  {
    hide SecurityValue, Permuted, Printed;
    forall i | 0 <= i < |a| ensures Printed(x[i], r.worth) && Printed(z[i], r.worth) {
      ItemPrinted(a, i, r);
      PermutedPrinted(a[i], there[i], r.worth);
      ValuePrinted(a[i], r);
      ValuePrinted(there[i], r);
    }
  }

  lemma ItemPrinted(a: seq<Json>, i: nat, r: Reader)
    requires i < |a| && Printed(List(a), r.worth)
    ensures Printed(a[i], r.worth)
  {
  }

  // ----- dictionaries -----------------------------------------------------------------------

  ghost predicate AlikeFields(x: seq<Field>, y: seq<Field>) {
    |x| == |y|
    && forall i :: 0 <= i < |x| ==> x[i].key == y[i].key && Meaning(x[i].value) == Meaning(y[i].value)
  }

  lemma {:induction false} FieldMeaningsAlike(x: seq<Field>, y: seq<Field>)
    requires AlikeFields(x, y)
    ensures MeaningFields(x) == MeaningFields(y)
  {
    if x != [] { FieldMeaningsAlike(x[1..], y[1..]); }
  }

  lemma {:induction false} InsertedFieldsAlike(f: Field, g: Field, x: seq<Field>, y: seq<Field>)
    requires f.key == g.key && Meaning(f.value) == Meaning(g.value) && AlikeFields(x, y)
    ensures AlikeFields(Insert(f, x, ByKey), Insert(g, y, ByKey))
  {
    hide Meaning, Le;
    if x != [] && ByKey(x[0], f) { InsertedFieldsAlike(f, g, x[1..], y[1..]); }
  }

  lemma {:induction false} SortedFieldsAlike(x: seq<Field>, y: seq<Field>)
    requires AlikeFields(x, y)
    ensures AlikeFields(Sort(x, ByKey), Sort(y, ByKey))
  {
    hide Meaning, Le;
    if x != [] {
      var n := |x| - 1;
      SortedFieldsAlike(x[..n], y[..n]);
      InsertedFieldsAlike(x[n], y[n], Sort(x[..n], ByKey), Sort(y[..n], ByKey));
    }
  }

  lemma {:induction false} SettledFieldsKeepMeaning(a: seq<Field>, b: seq<Field>, r: Reader)
    requires PermutedFields(a, b) && SettledFields(a, r) && Faithful(r) && Printed(Dict(a), r.worth)
    ensures AlikeFields(ValueFields(a, r), ValueFields(b, r))
    decreases a, 0
  {
    hide Meaning, SecurityValue;
    if a != [] {
      SkippedAlike(a[0].key, a[0].value, b[0].value, r.rules);
      assert PermutedFields(a[1..], b[1..]) && SettledFields(a[1..], r) && Printed(Dict(a[1..]), r.worth);
      SettledFieldsKeepMeaning(a[1..], b[1..], r);
      if !Skipped(a[0].key, a[0].value, r.rules) { SettledKeepsMeaning(a[0].value, b[0].value, r); }
    }
  }

  // ----- and only settled values do -----------------------------------------------------------

  lemma {:induction false} MeantFields(fields: seq<Field>)
    ensures multiset(MeaningFields(fields)) == multiset(Meant(fields))
  {
    hide Meaning;
    if fields != [] {
      MeantFields(fields[1..]);
      var f := Field(fields[0].key, Meaning(fields[0].value));
      InsertFieldKeeps(f, MeaningFields(fields[1..]));
      assert Meant(fields) == [f] + Meant(fields[1..]);
    }
  }

  function Meant(fields: seq<Field>): (r: seq<Field>)
    ensures |r| == |fields|
  {
    seq(|fields|, i requires 0 <= i < |fields| => Field(fields[i].key, Meaning(fields[i].value)))
  }

  lemma {:induction false} InsertFieldKeeps(f: Field, fields: seq<Field>)
    ensures multiset(InsertField(f, fields)) == multiset(fields) + multiset{f}
  {
    if fields != [] && !Le(f.key, fields[0].key) {
      InsertFieldKeeps(f, fields[1..]);
      assert fields == [fields[0]] + fields[1..];
    }
  }

  lemma {:induction false} MeantOfSame(a: seq<Field>, b: seq<Field>)
    requires multiset(a) == multiset(b)
    ensures multiset(Meant(a)) == multiset(Meant(b))
  {
    hide Meaning;
    if a == [] {
      assert |multiset(b)| == 0;
      assert b == [];
    } else {
      assert a[0] in multiset(b);
      var j :| 0 <= j < |b| && b[j] == a[0];
      FirstRemoved(a, b, j);
      MeantOfSame(a[1..], Others(b, j));
      var f := Field(a[0].key, Meaning(a[0].value));
      assert Meant(a) == [f] + Meant(a[1..]);
      assert Meant(b) == Meant(b[..j]) + ([f] + Meant(b[j + 1..]));
      assert Meant(Others(b, j)) == Meant(b[..j]) + Meant(b[j + 1..]);
    }
  }

  // One field of another meaning changes what the dictionary means.
  lemma FieldMeaningChanges(x: seq<Field>, y: seq<Field>, i: nat)
    requires i < |x| == |y| && x[i].key == y[i].key && Meaning(x[i].value) != Meaning(y[i].value) && y == x[i := y[i]]
    ensures MeaningFields(Sort(x, ByKey)) != MeaningFields(Sort(y, ByKey))
  {
    hide Sort, Meaning;
    KeysAreOrdered();
    SortFacts(x, ByKey);
    SortFacts(y, ByKey);
    MeantFields(Sort(x, ByKey));
    MeantFields(Sort(y, ByKey));
    MeantOfSame(Sort(x, ByKey), x);
    MeantOfSame(Sort(y, ByKey), y);
    assert Meant(y) == Meant(x)[i := Meant(y)[i]];
    MultisetChanges(Meant(x), i, Meant(y)[i]);
  }

  lemma {:induction false} FieldRespelled(fields: seq<Field>, k: nat, other: Json, r: Reader)
    requires k < |fields| && ValueMeaning(other, r) != ValueMeaning(fields[k].value, r)
    requires !Skipped(fields[k].key, fields[k].value, r.rules) && !Skipped(fields[k].key, other, r.rules)
    ensures var a, b := ValueFields(fields, r), ValueFields(fields[k := Field(fields[k].key, other)], r);
            |a| == |b| && exists i :: 0 <= i < |a| && a[i].key == b[i].key && b == a[i := b[i]]
                                    && Meaning(a[i].value) != Meaning(b[i].value)
  {
    hide SecurityValue, Skipped, Meaning;
    var changed := fields[k := Field(fields[k].key, other)];
    var a, b := ValueFields(fields, r), ValueFields(changed, r);
    if k == 0 {
      assert changed[1..] == fields[1..];
      assert a[0].key == b[0].key && b == a[0 := b[0]];
    } else {
      assert changed[1..] == fields[1..][k - 1 := Field(fields[k].key, other)];
      FieldRespelled(fields[1..], k - 1, other, r);
      var x, y := ValueFields(fields[1..], r), ValueFields(changed[1..], r);
      var i :| 0 <= i < |x| && x[i].key == y[i].key && y == x[i := y[i]] && Meaning(x[i].value) != Meaning(y[i].value);
      if Skipped(fields[0].key, fields[0].value, r.rules) {
        assert a == x && b == y;
      } else {
        assert a == [a[0]] + x && b == [a[0]] + y;
        ChangedOnce(a[0], x, y, i);
      }
    }
  }

  lemma ChangedOnce<T>(first: T, x: seq<T>, y: seq<T>, i: nat)
    requires |x| == |y| && i < |x| && y == x[i := y[i]]
    ensures var (a, b) := ([first] + x, [first] + y); a[i + 1] == x[i] && b[i + 1] == y[i] && b == a[i + 1 := b[i + 1]]
  {
  }

  // A value that is not settled means something else with its lists in another order.
  lemma {:induction false} UnsettledShows(v: Json, r: Reader) returns (b: Json)
    requires !Settled(v, r) && Faithful(r) && Printed(v, r.worth)
    ensures Permuted(v, b) && ValueMeaning(b, r) != ValueMeaning(v, r)
    decreases v
  {
    match v
    case Dict(fields) =>
      var k :| 0 <= k < |fields| && !Skipped(fields[k].key, fields[k].value, r.rules) && !Settled(fields[k].value, r);
      var other := UnsettledShows(fields[k].value, r);
      b := UnsettledFieldShows(fields, k, other, r);
    case List(items) =>
      if k :| 0 <= k < |items| && !Settled(items[k], r) {
        var other := UnsettledShows(items[k], r);
        b := List(items[k := other]);
        IdentityPermutes(items, items[k := other]);
        UnsettledItemShows(items, k, other, r);
      } else {
        b := UnkeptOrderShows(items, r);
      }
  }

  lemma UnsettledFieldShows(fields: seq<Field>, k: nat, other: Json, r: Reader) returns (b: Json)
    requires k < |fields| && !Skipped(fields[k].key, fields[k].value, r.rules)
    requires Permuted(fields[k].value, other) && ValueMeaning(other, r) != ValueMeaning(fields[k].value, r)
    ensures Permuted(Dict(fields), b) && ValueMeaning(b, r) != ValueMeaning(Dict(fields), r)
  {
    hide Sort, Permuted, Skipped, ValueFields;
    var changed := fields[k := Field(fields[k].key, other)];
    b := Dict(changed);
    FieldPermutes(fields, k, other);
    SkippedAlike(fields[k].key, fields[k].value, other, r.rules);
    FieldRespelled(fields, k, other, r);
    var x, y := ValueFields(fields, r), ValueFields(changed, r);
    var i :| 0 <= i < |x| && x[i].key == y[i].key && y == x[i := y[i]] && Meaning(x[i].value) != Meaning(y[i].value);
    FieldMeaningChanges(x, y, i);
  }

  lemma ItemChanged(items: seq<Json>, k: nat, other: Json, r: Reader)
    requires k < |items|
    ensures ValueItems(items[k := other], r) == ValueItems(items, r)[k := SecurityValue(other, r)]
  {
    hide SecurityValue;
    var x, y := ValueItems(items, r)[k := SecurityValue(other, r)], ValueItems(items[k := other], r);
    forall i | 0 <= i < |items| ensures y[i] == x[i] {
      ValueItemsAt(items, r, i);
      ValueItemsAt(items[k := other], r, i);
    }
  }

  lemma UnsettledItemShows(items: seq<Json>, k: nat, other: Json, r: Reader)
    requires k < |items| && ValueMeaning(other, r) != ValueMeaning(items[k], r)
    ensures ValueMeaning(List(items[k := other]), r) != ValueMeaning(List(items), r)
  {
    hide SecuritySorted, MeaningItems;
    var x, y := ValueItems(items, r), ValueItems(items[k := other], r);
    ItemChanged(items, k, other, r);
    ValueItemsAt(items, r, k);
    SecuritySortedKeeps(x, r);
    SecuritySortedKeeps(y, r);
    MeaningChanges(x, k, SecurityValue(other, r), SecuritySorted(x, r), SecuritySorted(y, r));
  }

  // Print order between items that differ: exactly one comes first.
  lemma OneFirst(x: Json, y: Json, r: Reader)
    requires Faithful(r) && Printed(x, r.worth) && Printed(y, r.worth) && ValueMeaning(x, r) != ValueMeaning(y, r)
    ensures PrintsFirst(x, y, r) != PrintsFirst(y, x, r)
  {
    hide SecurityValue, Meaning;
    ValuePrinted(x, r);
    ValuePrinted(y, r);
    var p, q := r.repr(SecurityValue(x, r)), r.repr(SecurityValue(y, r));
    LeTotal(p, q);
    if Le(p, q) && Le(q, p) { LeAntisymmetric(p, q); }
  }

  // An item respelled past another one that differs shows.
  lemma PassingShows(items: seq<Json>, k: nat, j: nat, other: Json, r: Reader)
    requires Faithful(r) && Printed(List(items), r.worth) && Structured(items, r)
    requires k < |items| && j < |items| && j != k && Permuted(items[k], other)
    requires ValueMeaning(other, r) == ValueMeaning(items[k], r) != ValueMeaning(items[j], r)
    requires PrintsFirst(items[j], items[k], r) != PrintsFirst(items[j], other, r)
    ensures Structured(items[k := other], r)
    ensures ValueMeaning(List(items[k := other]), r) != ValueMeaning(List(items), r)
  {
    hide Sort, SecurityValue, Meaning, MeaningItems, AllText, AllNumbers;
    var x, z := ValueItems(items, r), SecurityValue(other, r);
    ItemChanged(items, k, other, r);
    ValueItemsAt(items, r, k);
    ValueItemsAt(items, r, j);
    StaysStructured(items, k, other, r);
    ValuesPrinted(items, r);
    ChangedPrinted(items, k, other, r);
    ReprIsTotal(r);
    ReprTies(x, r);
    ReprTies(x[k := z], r);
    RespelledApart(x, k, j, z, ByRepr(r));
    ListMeaning(items, r);
    ListMeaning(items[k := other], r);
  }

  lemma ListMeaning(items: seq<Json>, r: Reader)
    requires Structured(items, r)
    ensures ValueMeaning(List(items), r) == List(MeaningItems(Sort(ValueItems(items, r), ByRepr(r))))
  {
  }

  lemma ChangedPrinted(items: seq<Json>, k: nat, other: Json, r: Reader)
    requires k < |items| && Printed(List(items), r.worth) && Permuted(items[k], other)
    ensures Printed(other, r.worth) && Printed(List(items[k := other]), r.worth)
    ensures AllPrinted(ValueItems(items[k := other], r), r.worth)
  {
    PermutedPrinted(items[k], other, r.worth);
    ValuesPrinted(items[k := other], r);
  }

  lemma StaysStructured(items: seq<Json>, k: nat, other: Json, r: Reader)
    requires k < |items| && Permuted(items[k], other) && Structured(items, r)
    ensures Structured(items[k := other], r)
  {
    hide SecurityValue, Permuted;
    var x, y := ValueItems(items, r), ValueItems(items[k := other], r);
    ItemChanged(items, k, other, r);
    ValueItemsAt(items, r, k);
    KindOfValue(items[k], other, r);
    StructuredStays(x, y);
  }

  // Items all settled, two of them not in a fixed order: some order of the lists inside
  // them shows.
  lemma UnkeptOrderShows(items: seq<Json>, r: Reader) returns (b: Json)
    requires Faithful(r) && Printed(List(items), r.worth) && !Settled(List(items), r)
    requires forall i :: 0 <= i < |items| ==> Settled(items[i], r)
    ensures Permuted(List(items), b) && ValueMeaning(b, r) != ValueMeaning(List(items), r)
  {
    hide SecurityValue, Permuted, Meaning, Settled, Printed, KeepOrder;
    UnkeptOrder(items, r);
    var i, j :| 0 <= i < |items| && 0 <= j < |items| && i != j && !KeepOrder(items[i], items[j], r);
    KeepOrderExactly(items[i], items[j], r);
    var x, y :| Permuted(items[i], x) && Permuted(items[j], y)
             && PrintsFirst(x, y, r) != PrintsFirst(items[i], items[j], r);
    ItemPrinted(items, i, r);
    ItemPrinted(items, j, r);
    SettledKeepsMeaning(items[i], x, r);
    SettledKeepsMeaning(items[j], y, r);
    PermutedReflexive(items[i]);
    var second := items[j := y];
    IdentityPermutes(items, second);
    if PrintsFirst(items[i], y, r) != PrintsFirst(items[i], items[j], r) {
      PassingShows(items, j, i, y, r);
      b := List(second);
    } else {
      StaysStructured(items, j, y, r);
      ChangedPrinted(items, j, y, r);
      PermutedPrinted(items[i], x, r.worth);
      OneFirst(items[i], y, r);
      OneFirst(x, y, r);
      PassingShows(second, i, j, x, r);
      var both := second[i := x];
      BothPermute(items, i, j, x, y);
      b := if ValueMeaning(List(second), r) != ValueMeaning(List(items), r) then List(second) else List(both);
    }
  }

  lemma BothPermute(items: seq<Json>, i: nat, j: nat, x: Json, y: Json)
    requires i < |items| && j < |items| && i != j && Permuted(items[i], x) && Permuted(items[j], y)
    ensures Permuted(List(items), List(items[j := y][i := x]))
  {
    hide Permuted;
    IdentityPermutes(items, items[j := y][i := x]);
  }

  lemma UnkeptOrder(items: seq<Json>, r: Reader)
    requires !Settled(List(items), r) && forall i :: 0 <= i < |items| ==> Settled(items[i], r)
    ensures Structured(items, r) && !ItemsKeepOrder(items, r)
  {
  }

  // A value means the same whatever the order of its lists exactly when it is settled.
  lemma MeaningIgnoresOrderExactly(v: Json, r: Reader)
    requires Faithful(r) && Printed(v, r.worth)
    ensures (forall b :: Permuted(v, b) ==> ValueMeaning(b, r) == ValueMeaning(v, r)) <==> Settled(v, r)
  {
    hide ValueMeaning, Permuted, Faithful;
    if Settled(v, r) {
      forall b | Permuted(v, b) ensures ValueMeaning(b, r) == ValueMeaning(v, r) { SettledKeepsMeaning(v, b, r); }
    } else {
      var b := UnsettledShows(v, r);
    }
  }

  // ----- which values are settled --------------------------------------------------------------

  // Whatever stands inside a list sorted by print spells its numbers one way.
  predicate ClearInside(v: Json, r: Reader)
    decreases v, 1
  {
    match v
    case Dict(fields) => ClearInsideFields(fields, r)
    case List(items) =>
      if Structured(items, r) then forall i :: 0 <= i < |items| ==> Clear(items[i], r.rules)
      else forall i :: 0 <= i < |items| ==> ClearInside(items[i], r)
    case _ => true
  }

  predicate ClearInsideFields(fields: seq<Field>, r: Reader)
    decreases fields, 0
  {
    forall i :: 0 <= i < |fields| ==>
      Skipped(fields[i].key, fields[i].value, r.rules) || ClearInside(fields[i].value, r)
  }

  lemma {:induction false} ClearIsSettled(v: Json, r: Reader)
    requires Faithful(r) && Printed(v, r.worth) && Clear(v, r.rules)
    ensures Settled(v, r)
  {
    hide Faithful;
    MeaningIgnoresOrderExactly(v, r);
    forall b | Permuted(v, b) ensures ValueMeaning(b, r) == ValueMeaning(v, r) { ValueIgnoresOrder(v, b, r); }
  }

  // One spelling of each number there is enough: a list of numbers by itself may mix them.
  lemma {:induction false} ClearInsideIsSettled(v: Json, r: Reader)
    requires Faithful(r) && Printed(v, r.worth) && ClearInside(v, r)
    ensures Settled(v, r)
    decreases v, 1
  {
    hide Faithful;
    match v
    case Dict(fields) =>
      forall i | 0 <= i < |fields| && !Skipped(fields[i].key, fields[i].value, r.rules)
        ensures Settled(fields[i].value, r)
      {
        ClearInsideIsSettled(fields[i].value, r);
      }
    case List(items) =>
      if Structured(items, r) {
        forall i | 0 <= i < |items| ensures Settled(items[i], r) { ClearIsSettled(items[i], r); }
        forall i, j | 0 <= i < |items| && 0 <= j < |items| && i != j ensures KeepOrder(items[i], items[j], r) {
          ClearKeepsOrder(items[i], items[j], r);
        }
      } else {
        forall i | 0 <= i < |items| ensures Settled(items[i], r) { ClearInsideIsSettled(items[i], r); }
      }
    case _ =>
  }

  lemma ClearKeepsOrder(x: Json, y: Json, r: Reader)
    requires Faithful(r) && Printed(x, r.worth) && Printed(y, r.worth) && Clear(x, r.rules) && Clear(y, r.rules)
    ensures KeepOrder(x, y, r)
  {
    hide Permuted, SecurityValue, Meaning, Faithful, KeepOrder;
    KeepOrderExactly(x, y, r);
    forall x', y' | Permuted(x, x') && Permuted(y, y') ensures PrintsFirst(x', y', r) <==> PrintsFirst(x, y, r) {
      ValueIgnoresOrder(x, x', r);
      ValueIgnoresOrder(y, y', r);
    }
  }
}
