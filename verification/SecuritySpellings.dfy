/** Every way a firmware may order the lists of a value, and every way the value then prints. */
module SecuritySpellings {
  import opened Json
  import opened Lex
  import opened Sorting
  import opened SecurityLeaves

  // ----- all orders of a list ----------------------------------------------------------------

  function Orders(xs: seq<Json>): set<seq<Json>>
    decreases |xs|
  {
    if xs == [] then {[]} else set i, ys | 0 <= i < |xs| && ys in Orders(Others(xs, i)) :: [xs[i]] + ys
  }

  lemma OrdersExactly(xs: seq<Json>, ys: seq<Json>)
    ensures ys in Orders(xs) <==> multiset(ys) == multiset(xs)
  {
    hide Orders;
    if ys in Orders(xs) { OrdersKeep(xs, ys); }
    if multiset(ys) == multiset(xs) { OrdersHave(xs, ys); }
  }

  lemma {:induction false} OrdersKeep(xs: seq<Json>, ys: seq<Json>)
    requires ys in Orders(xs)
    ensures multiset(ys) == multiset(xs)
    decreases |xs|
  {
    if xs != [] {
      var i, rest :| 0 <= i < |xs| && rest in Orders(Others(xs, i)) && ys == [xs[i]] + rest;
      OrdersKeep(Others(xs, i), rest);
      MovedFirst(xs, i, rest);
    }
  }

  lemma MovedFirst(xs: seq<Json>, i: nat, rest: seq<Json>)
    requires i < |xs| && multiset(rest) == multiset(Others(xs, i))
    ensures multiset([xs[i]] + rest) == multiset(xs)
  {
    assert xs == xs[..i] + ([xs[i]] + xs[i + 1..]);
  }

  lemma {:induction false} OrdersHave(xs: seq<Json>, ys: seq<Json>)
    requires multiset(ys) == multiset(xs)
    ensures ys in Orders(xs)
    decreases |xs|
  {
    assert |multiset(ys)| == |multiset(xs)|;
    if xs != [] {
      var i := FirstOf(xs, ys);
      FirstRemoved(ys, xs, i);
      OrdersHave(Others(xs, i), ys[1..]);
      assert ys == [xs[i]] + ys[1..];
    }
  }

  lemma FirstOf(xs: seq<Json>, ys: seq<Json>) returns (i: nat)
    requires multiset(ys) == multiset(xs) && ys != []
    ensures i < |xs| && xs[i] == ys[0]
  {
    assert ys[0] in multiset(xs);
    i :| 0 <= i < |xs| && xs[i] == ys[0];
  }

  // ----- all arrangements of a value -----------------------------------------------------------

  function Arrangements(v: Json): set<Json>
    decreases v, 1
  {
    match v
    case Dict(fields) => set fs | fs in FieldChoices(fields) :: Dict(fs)
    case List(items) => set xs, ys | xs in Choices(items) && ys in Orders(xs) :: List(ys)
    case _ => {v}
  }

  // One arrangement for each item.
  function Choices(items: seq<Json>): set<seq<Json>>
    decreases items, 0
  {
    if items == [] then {[]} else set x, xs | x in Arrangements(items[0]) && xs in Choices(items[1..]) :: [x] + xs
  }

  function FieldChoices(fields: seq<Field>): set<seq<Field>>
    decreases fields, 0
  {
    if fields == [] then {[]}
    else
      set x, fs | x in Arrangements(fields[0].value) && fs in FieldChoices(fields[1..]) ::
        [Field(fields[0].key, x)] + fs
  }

  lemma {:induction false} ChoicesExactly(items: seq<Json>, xs: seq<Json>)
    ensures xs in Choices(items) <==> |xs| == |items| && forall i :: 0 <= i < |items| ==> Permuted(items[i], xs[i])
    decreases items, 0
  {
    if items != [] {
      if xs in Choices(items) {
        var x, rest :| x in Arrangements(items[0]) && rest in Choices(items[1..]) && xs == [x] + rest;
        ArrangementsExactly(items[0], x);
        ChoicesExactly(items[1..], rest);
      }
      if |xs| == |items| && forall i :: 0 <= i < |items| ==> Permuted(items[i], xs[i]) {
        ArrangementsExactly(items[0], xs[0]);
        ChoicesExactly(items[1..], xs[1..]);
        assert xs == [xs[0]] + xs[1..];
      }
    }
  }

  lemma {:induction false} FieldChoicesExactly(fields: seq<Field>, fs: seq<Field>)
    ensures fs in FieldChoices(fields) <==> PermutedFields(fields, fs)
    decreases fields, 0
  {
    if fields != [] {
      if fs in FieldChoices(fields) {
        var x, rest :| x in Arrangements(fields[0].value) && rest in FieldChoices(fields[1..])
          && fs == [Field(fields[0].key, x)] + rest;
        ArrangementsExactly(fields[0].value, x);
        FieldChoicesExactly(fields[1..], rest);
      }
      if PermutedFields(fields, fs) {
        ArrangementsExactly(fields[0].value, fs[0].value);
        FieldChoicesExactly(fields[1..], fs[1..]);
        assert fs == [Field(fields[0].key, fs[0].value)] + fs[1..];
      }
    }
  }

  // The arrangements are the same values, their lists in any order at any depth.
  lemma {:induction false} ArrangementsExactly(v: Json, b: Json)
    ensures b in Arrangements(v) <==> Permuted(v, b)
    decreases v, 1
  {
    match v
    case Dict(fields) => if b.Dict? { FieldChoicesExactly(fields, b.fields); }
    case List(items) => if b.List? { ListsExactly(items, b.items); }
    case _ =>
  }

  lemma {:induction false} ListsExactly(items: seq<Json>, ys: seq<Json>)
    ensures List(ys) in Arrangements(List(items)) <==> Permuted(List(items), List(ys))
    decreases items, 1
  {
    hide Choices, Orders;
    if List(ys) in Arrangements(List(items)) {
      var xs :| xs in Choices(items) && ys in Orders(xs);
      ChoicesExactly(items, xs);
      OrdersExactly(xs, ys);
      ReorderedIsPermuted(items, xs, ys);
    }
    if Permuted(List(items), List(ys)) {
      var xs := PermutedIsReordered(items, ys);
      ChoicesExactly(items, xs);
      OrdersExactly(xs, ys);
    }
  }

  lemma ReorderedIsPermuted(items: seq<Json>, xs: seq<Json>, ys: seq<Json>)
    requires |xs| == |items| && forall i :: 0 <= i < |items| ==> Permuted(items[i], xs[i])
    requires multiset(xs) == multiset(ys)
    ensures Permuted(List(items), List(ys))
  {
    hide Permutation;
    var p := MultisetPermutes(xs, ys);
    PermutedLists(items, ys, p);
  }

  lemma PermutedLists(items: seq<Json>, ys: seq<Json>, p: seq<nat>)
    requires |items| == |ys| && Permutation(p, |items|)
    requires forall i :: 0 <= i < |items| ==> Permuted(items[i], ys[p[i]])
    ensures Permuted(List(items), List(ys))
  {
  }

  lemma PermutedIsReordered(items: seq<Json>, ys: seq<Json>) returns (xs: seq<Json>)
    requires Permuted(List(items), List(ys))
    ensures |xs| == |items| && forall i :: 0 <= i < |items| ==> Permuted(items[i], xs[i])
    ensures multiset(xs) == multiset(ys)
  {
    var p :| Permutation(p, |items|) && forall i :: 0 <= i < |items| ==> Permuted(items[i], ys[p[i]]);
    xs := seq(|items|, i requires 0 <= i < |items| => ys[p[i]]);
    PermutedMultiset(xs, ys, p);
  }

  // ----- how they print --------------------------------------------------------------------------

  function Print(v: Json, r: Reader): string { r.repr(SecurityValue(v, r)) }

  function Prints(v: Json, r: Reader): set<string> { set b | b in Arrangements(v) :: Print(b, r) }

  // However either's lists are ordered, the one prints before the other, or never does.
  predicate PrintApart(x: Json, y: Json, r: Reader) {
    || (forall p, q :: p in Prints(x, r) && q in Prints(y, r) ==> Le(p, q))
    || (forall p, q :: p in Prints(x, r) && q in Prints(y, r) ==> !Le(p, q))
  }

  lemma PrintApartExactly(x: Json, y: Json, r: Reader)
    ensures PrintApart(x, y, r)
       <==> forall x', y' :: Permuted(x, x') && Permuted(y, y') ==>
              (Le(Print(x', r), Print(y', r)) <==> Le(Print(x, r), Print(y, r)))
  {
    hide Arrangements, Permuted, SecurityValue, Le;
    PermutedReflexive(x);
    PermutedReflexive(y);
    forall b ensures b in Arrangements(x) <==> Permuted(x, b) { ArrangementsExactly(x, b); }
    forall b ensures b in Arrangements(y) <==> Permuted(y, b) { ArrangementsExactly(y, b); }
    if PrintApart(x, y, r) {
      forall x', y' | Permuted(x, x') && Permuted(y, y')
        ensures Le(Print(x', r), Print(y', r)) <==> Le(Print(x, r), Print(y, r))
      {
        assert Print(x', r) in Prints(x, r) && Print(y', r) in Prints(y, r);
        assert Print(x, r) in Prints(x, r) && Print(y, r) in Prints(y, r);
      }
    } else {
      var p, q :| p in Prints(x, r) && q in Prints(y, r) && Le(p, q) != Le(Print(x, r), Print(y, r));
      var x' :| x' in Arrangements(x) && p == Print(x', r);
      var y' :| y' in Arrangements(y) && q == Print(y', r);
      assert Permuted(x, x') && Permuted(y, y');
    }
  }
}
