/** Keyed leaves of a vendor's security resource: the order a firmware serves its
    lists in is not state. */
module SecurityLeaves {
  import opened Json
  import opened Lex
  import opened Scrub
  import opened Sorting

  // The redaction rules, Python's `repr`, and what a number's text is worth.
  datatype Reader = Reader(rules: Rules, repr: Json -> string, worth: string -> real)

  const SKIP_TOP: set<string> := {"Id", "Name", "Description"}
  const SKIP_ANY: set<string> := {"Actions", "Links"}

  predicate IsAnnotation(key: string) { key != "" && key[0] == '@' }

  // `_security_is_link`
  predicate IsLink(v: Json) {
    v.Dict? && HasKey(v.fields, "@odata.id") && AllAnnotations(v.fields)
  }

  predicate HasKey(fields: seq<Field>, key: string) {
    exists i :: 0 <= i < |fields| && fields[i].key == key
  }

  predicate AllAnnotations(fields: seq<Field>) {
    forall i :: 0 <= i < |fields| ==> IsAnnotation(fields[i].key)
  }

  predicate AllLinks(items: seq<Json>) { forall i :: 0 <= i < |items| ==> IsLink(items[i]) }

  // Skipped wherever it stands: annotations, navigation and POST targets, secrets.
  predicate Skipped(key: string, value: Json, rules: Rules) {
    IsAnnotation(key) || key in SKIP_ANY || IsSecret(key, value, rules)
  }

  // ----- sorting values ---------------------------------------------------------------

  function TextOf(v: Json): string { if v.Str? then v.s else "" }

  function NumberOf(v: Json): real { if v.Num? then v.value else 0.0 }

  predicate ByText(x: Json, y: Json) { Le(TextOf(x), TextOf(y)) }

  predicate ByNumber(x: Json, y: Json) { NumberOf(x) <= NumberOf(y) }

  function ByRepr(r: Reader): (Json, Json) -> bool { (x, y) => Le(r.repr(x), r.repr(y)) }

  predicate ByKey(f: Field, g: Field) { Le(f.key, g.key) }

  predicate AllText(values: seq<Json>) { forall v :: v in values ==> v.Str? }

  predicate AllNumbers(values: seq<Json>) { forall v :: v in values ==> v.Num? }

  // `_security_sorted`
  function SecuritySorted(values: seq<Json>, r: Reader): seq<Json> {
    if AllText(values) then Sort(values, ByText)
    else if AllNumbers(values) then Sort(values, ByNumber)
    else Sort(values, ByRepr(r))
  }

  // `_security_value`. Keys decide the order of a dictionary, so mapping its values
  // first and sorting after comes to the same.
  function SecurityValue(v: Json, r: Reader): Json
    decreases v, 1
  {
    match v
    case Dict(fields) => Dict(Sort(ValueFields(fields, r), ByKey))
    case List(items) => List(SecuritySorted(ValueItems(items, r), r))
    case Str(s) => if Blank(s) then Null else v
    case _ => v
  }

  function ValueItems(items: seq<Json>, r: Reader): (values: seq<Json>)
    ensures |values| == |items|
    decreases items, 0
  {
    if items == [] then [] else [SecurityValue(items[0], r)] + ValueItems(items[1..], r)
  }

  function ValueFields(fields: seq<Field>, r: Reader): seq<Field>
    decreases fields, 0
  {
    if fields == [] then []
    else if Skipped(fields[0].key, fields[0].value, r.rules) then ValueFields(fields[1..], r)
    else [Field(fields[0].key, SecurityValue(fields[0].value, r))] + ValueFields(fields[1..], r)
  }

  // `_security_leaves`
  function Leaves(node: Json, prefix: string, r: Reader): map<string, Json>
    decreases node, 1
  {
    if node.Dict? then FieldLeaves(node.fields, prefix, r) else map[]
  }

  function FieldLeaves(fields: seq<Field>, prefix: string, r: Reader): map<string, Json>
    decreases fields, 0
  {
    if fields == [] then map[]
    else
      var f := fields[|fields| - 1];
      FieldLeaves(fields[..|fields| - 1], prefix, r) + LeafOf(f.key, f.value, prefix, r)
  }

  function Path(prefix: string, key: string): string { if prefix == "" then key else prefix + "." + key }

  // What one property of the resource contributes.
  function LeafOf(key: string, value: Json, prefix: string, r: Reader): map<string, Json>
    decreases value, 2
  {
    if PassedOver(key, value, prefix, r.rules) then map[]
    else if value.Dict? then Leaves(value, Path(prefix, key), r)
    else map[Path(prefix, key) := SecurityValue(value, r)]
  }

  // The property is skipped, is part of the resource's own identity, or only navigates.
  predicate PassedOver(key: string, value: Json, prefix: string, rules: Rules) {
    Skipped(key, value, rules) || (prefix == "" && key in SKIP_TOP)
    || (value.List? && value.items != [] && AllLinks(value.items))
  }

  // ----- the same resource, lists served in another order -------------------------------

  ghost predicate Permuted(a: Json, b: Json)
    decreases a, 1
  {
    match (a, b)
    case (Dict(fa), Dict(fb)) => PermutedFields(fa, fb)
    case (List(ia), List(ib)) =>
      |ia| == |ib| && exists p :: Permutation(p, |ia|) && forall i :: 0 <= i < |ia| ==> Permuted(ia[i], ib[p[i]])
    case _ => a == b
  }

  ghost predicate PermutedFields(a: seq<Field>, b: seq<Field>)
    decreases a, 0
  {
    |a| == |b| && forall i :: 0 <= i < |a| ==> a[i].key == b[i].key && Permuted(a[i].value, b[i].value)
  }

  // In a list of numbers, equal ones print alike: no 1 beside 1.0. What is clear decides
  // how a leaf is spelled; SecurityOrder says when its value, as Python compares it, may change.
  predicate ClearNumbers(items: seq<Json>) {
    AllNumbers(items) ==> forall x, y :: x in items && y in items && NumberOf(x) == NumberOf(y) ==> x == y
  }

  // Every list that makes up the value is clear.
  predicate Clear(v: Json, rules: Rules)
    decreases v, 1
  {
    match v
    case Dict(fields) => ClearFields(fields, rules)
    case List(items) => ClearNumbers(items) && forall i :: 0 <= i < |items| ==> Clear(items[i], rules)
    case _ => true
  }

  predicate ClearFields(fields: seq<Field>, rules: Rules)
    decreases fields, 0
  {
    forall i :: 0 <= i < |fields| ==> Skipped(fields[i].key, fields[i].value, rules) || Clear(fields[i].value, rules)
  }

  // Every number is worth what its text is worth.
  predicate Printed(v: Json, worth: string -> real) {
    match v
    case Num(value, text) => value == worth(text)
    case List(items) => forall i :: 0 <= i < |items| ==> Printed(items[i], worth)
    case Dict(fields) => forall i :: 0 <= i < |fields| ==> Printed(fields[i].value, worth)
    case _ => true
  }

  predicate AllPrinted(values: seq<Json>, worth: string -> real) {
    forall v :: v in values ==> Printed(v, worth)
  }

  // `repr` tells values apart, numbers by their text.
  ghost predicate Faithful(r: Reader) {
    forall x, y :: Printed(x, r.worth) && Printed(y, r.worth) && r.repr(x) == r.repr(y) ==> x == y
  }

  // ----- orders ---------------------------------------------------------------------------

  lemma OrdersAreTotal(r: Reader)
    ensures TotalOrder(ByText) && TotalOrder(ByNumber) && TotalOrder(ByRepr(r)) && TotalOrder(ByKey)
  {
    forall a, b ensures Le(a, b) || Le(b, a) { LeTotal(a, b); }
    forall a, b, c | Le(a, b) && Le(b, c) ensures Le(a, c) { LeTransitive(a, b, c); }
  }

  lemma OrdersDistinguish(values: seq<Json>, r: Reader)
    requires Faithful(r) && AllPrinted(values, r.worth)
    ensures AllText(values) ==> Antisymmetric(values, ByText)
    ensures AllNumbers(values) && ClearNumbers(values) ==> Antisymmetric(values, ByNumber)
    ensures Antisymmetric(values, ByRepr(r))
  {
    forall a, b | Le(a, b) && Le(b, a) ensures a == b { LeAntisymmetric(a, b); }
  }

  lemma SameElements(a: seq<Json>, b: seq<Json>)
    requires multiset(a) == multiset(b)
    ensures AllText(a) == AllText(b) && AllNumbers(a) == AllNumbers(b)
  {
    forall v ensures v in a <==> v in b { assert v in a <==> v in multiset(a); assert v in b <==> v in multiset(b); }
  }

  // Values in any order sort the same way, if no two equal numbers print differently.
  lemma SortIgnoresOrder(a: seq<Json>, b: seq<Json>, r: Reader)
    requires multiset(a) == multiset(b) && ClearNumbers(a) && Faithful(r) && AllPrinted(a, r.worth)
    ensures SecuritySorted(a, r) == SecuritySorted(b, r)
  {
    OrdersAreTotal(r);
    SameElements(a, b);
    if AllText(a) {
      SortsAlike(a, b, ByText, r);
    } else if AllNumbers(a) {
      SortsAlike(a, b, ByNumber, r);
    } else {
      SortsAlike(a, b, ByRepr(r), r);
    }
  }

  lemma SortsAlike(a: seq<Json>, b: seq<Json>, le: (Json, Json) -> bool, r: Reader)
    requires multiset(a) == multiset(b) && ClearNumbers(a) && Faithful(r) && AllPrinted(a, r.worth) && TotalOrder(le)
    requires (le == ByText && AllText(a)) || (le == ByNumber && AllNumbers(a)) || le == ByRepr(r)
    ensures Sort(a, le) == Sort(b, le)
  {
    SortFacts(a, le);
    SortFacts(b, le);
    var s := Sort(a, le);
    forall v ensures v in s <==> v in a { assert v in s <==> v in multiset(s); assert v in a <==> v in multiset(a); }
    OrdersDistinguish(a, r);
    SortedUnique(s, Sort(b, le), le);
  }

  // ----- values ignore the order of lists ----------------------------------------------------

  lemma KindKept(a: Json, b: Json)
    requires Permuted(a, b)
    ensures IsNumberOrBool(a) == IsNumberOrBool(b) && a.Dict? == b.Dict? && a.List? == b.List? && a.Num? == b.Num?
    ensures IsLink(a) == IsLink(b)
  {
    if a.Dict? && b.Dict? {
      assert PermutedFields(a.fields, b.fields);
      if HasKey(a.fields, "@odata.id") {
        var i :| 0 <= i < |a.fields| && a.fields[i].key == "@odata.id";
        assert b.fields[i].key == a.fields[i].key;
      }
      if HasKey(b.fields, "@odata.id") {
        var i :| 0 <= i < |b.fields| && b.fields[i].key == "@odata.id";
        assert a.fields[i].key == b.fields[i].key;
      }
      assert forall i :: 0 <= i < |a.fields| ==> a.fields[i].key == b.fields[i].key;
    }
  }

  lemma {:induction false} ValueItemsAt(items: seq<Json>, r: Reader, i: nat)
    requires i < |items|
    ensures ValueItems(items, r)[i] == SecurityValue(items[i], r)
  {
    if i > 0 { ValueItemsAt(items[1..], r, i - 1); }
  }

  lemma {:induction false} ValuePrinted(v: Json, r: Reader)
    requires Printed(v, r.worth)
    ensures Printed(SecurityValue(v, r), r.worth)
    decreases v, 1
  {
    match v
    case List(items) =>
      var values := ValueItems(items, r);
      ValuesPrinted(items, r);
      SecuritySortedKeeps(values, r);
      var sorted := SecuritySorted(values, r);
      forall i | 0 <= i < |sorted| ensures Printed(sorted[i], r.worth) {
        assert sorted[i] in multiset(sorted);
        assert sorted[i] in values;
      }
    case Dict(fields) =>
      var kept := ValueFields(fields, r);
      FieldsPrinted(fields, r);
      KeysAreOrdered();
      SortFacts(kept, ByKey);
      var sorted := Sort(kept, ByKey);
      forall i | 0 <= i < |sorted| ensures Printed(sorted[i].value, r.worth) {
        assert sorted[i] in multiset(sorted);
        assert sorted[i] in kept;
      }
    case _ =>
  }

  lemma {:induction false} ValuesPrinted(items: seq<Json>, r: Reader)
    requires Printed(List(items), r.worth)
    ensures AllPrinted(ValueItems(items, r), r.worth)
    decreases items, 0
  {
    var values := ValueItems(items, r);
    forall v | v in values ensures Printed(v, r.worth) {
      var i :| 0 <= i < |values| && values[i] == v;
      ValueItemsAt(items, r, i);
      ValuePrinted(items[i], r);
    }
  }

  lemma {:induction false} FieldsPrinted(fields: seq<Field>, r: Reader)
    requires Printed(Dict(fields), r.worth)
    ensures forall f :: f in ValueFields(fields, r) ==> Printed(f.value, r.worth)
    decreases fields, 0
  {
    if fields != [] {
      assert Printed(Dict(fields[1..]), r.worth);
      FieldsPrinted(fields[1..], r);
      if !Skipped(fields[0].key, fields[0].value, r.rules) { ValuePrinted(fields[0].value, r); }
    }
  }

  lemma NumbersStay(v: Json, r: Reader)
    ensures SecurityValue(v, r).Num? == v.Num? && (v.Num? ==> SecurityValue(v, r) == v)
  {
  }

  lemma ClearValues(items: seq<Json>, r: Reader)
    requires ClearNumbers(items)
    ensures ClearNumbers(ValueItems(items, r))
  {
    var values := ValueItems(items, r);
    if AllNumbers(values) {
      forall i | 0 <= i < |items|
        ensures items[i].Num? && values[i] == items[i]
      {
        ValueItemsAt(items, r, i);
        NumbersStay(items[i], r);
        assert values[i] in values;
      }
      assert values == items;
    }
  }

  lemma {:induction false} ValueIgnoresOrder(a: Json, b: Json, r: Reader)
    requires Permuted(a, b) && Clear(a, r.rules) && Faithful(r) && Printed(a, r.worth)
    ensures SecurityValue(a, r) == SecurityValue(b, r)
    decreases a, 1
  {
    match (a, b)
    case (Dict(fa), Dict(fb)) => FieldsIgnoreOrder(fa, fb, r);
    case (List(ia), List(ib)) => ItemsIgnoreOrder(ia, ib, r);
    case _ =>
  }

  lemma {:induction false} ItemsIgnoreOrder(a: seq<Json>, b: seq<Json>, r: Reader)
    requires Permuted(List(a), List(b)) && Clear(List(a), r.rules) && Faithful(r) && Printed(List(a), r.worth)
    ensures SecuritySorted(ValueItems(a, r), r) == SecuritySorted(ValueItems(b, r), r)
    decreases a, 0
  {
    var p :| Permutation(p, |a|) && forall i :: 0 <= i < |a| ==> Permuted(a[i], b[p[i]]);
    var x, y := ValueItems(a, r), ValueItems(b, r);
    forall i | 0 <= i < |a|
      ensures x[i] == y[p[i]]
    {
      ValueIgnoresOrder(a[i], b[p[i]], r);
      ValueItemsAt(a, r, i);
      ValueItemsAt(b, r, p[i]);
    }
    PermutedMultiset(x, y, p);
    ValuesPrinted(a, r);
    ClearValues(a, r);
    SortIgnoresOrder(x, y, r);
  }

  lemma {:induction false} FieldsIgnoreOrder(a: seq<Field>, b: seq<Field>, r: Reader)
    requires PermutedFields(a, b) && ClearFields(a, r.rules) && Faithful(r) && Printed(Dict(a), r.worth)
    ensures ValueFields(a, r) == ValueFields(b, r)
    decreases a, 0
  {
    if a != [] {
      KindKept(a[0].value, b[0].value);
      if !Skipped(a[0].key, a[0].value, r.rules) { ValueIgnoresOrder(a[0].value, b[0].value, r); }
      assert PermutedFields(a[1..], b[1..]) && Printed(Dict(a[1..]), r.worth);
      FieldsIgnoreOrder(a[1..], b[1..], r);
    }
  }

  // ----- leaves ignore the order of lists ----------------------------------------------------

  // Every leaf's value is clear; what yields no leaf does not matter.
  predicate ClearLeaves(node: Json, prefix: string, rules: Rules)
    decreases node, 1
  {
    node.Dict? ==> ClearFieldLeaves(node.fields, prefix, rules)
  }

  predicate ClearFieldLeaves(fields: seq<Field>, prefix: string, rules: Rules)
    decreases fields, 0
  {
    forall i :: 0 <= i < |fields| ==> ClearLeaf(fields[i].key, fields[i].value, prefix, rules)
  }

  predicate ClearLeaf(key: string, value: Json, prefix: string, rules: Rules)
    decreases value, 2
  {
    PassedOver(key, value, prefix, rules)
    || (if value.Dict? then ClearLeaves(value, Path(prefix, key), rules) else Clear(value, rules))
  }

  lemma LinksKept(a: seq<Json>, b: seq<Json>)
    requires Permuted(List(a), List(b))
    ensures AllLinks(a) ==> AllLinks(b)
  {
    var p :| Permutation(p, |a|) && forall i :: 0 <= i < |a| ==> Permuted(a[i], b[p[i]]);
    if AllLinks(a) {
      forall j | 0 <= j < |b|
        ensures IsLink(b[j])
      {
        var i := PermutationHits(p, |a|, j);
        KindKept(a[i], b[p[i]]);
      }
    }
  }

  // A permutation reaches every position.
  lemma {:induction false} PermutationHits(p: seq<nat>, n: nat, j: nat) returns (i: nat)
    requires Permutation(p, n) && j < n
    ensures i < n && p[i] == j
  {
    var all := seq(n, k requires 0 <= k < n => p[k] as int);
    var identity := seq(n, k requires 0 <= k < n => k as int);
    PermutedMultiset(all, identity, p);
    assert identity[j] == j && (j as int) in multiset(identity);
    assert (j as int) in multiset(all);
    i :| 0 <= i < |all| && all[i] == j;
  }

  lemma {:induction false} Inverse(p: seq<nat>, n: nat) returns (q: seq<nat>)
    requires Permutation(p, n)
    ensures Permutation(q, n) && forall i :: 0 <= i < n ==> q[p[i]] == i
  {
    q := seq(n, j requires 0 <= j < n => Position(p, j));
    forall i | 0 <= i < n
      ensures q[p[i]] == i
    {
      PositionOf(p, i);
    }
    forall j | 0 <= j < n
      ensures q[j] < n && p[q[j]] == j
    {
      var i := PermutationHits(p, n, j);
      PositionOf(p, i);
    }
  }

  function Position(p: seq<nat>, j: nat): nat {
    if p == [] || p[0] == j then 0 else 1 + Position(p[1..], j)
  }

  lemma {:induction false} PositionOf(p: seq<nat>, i: nat)
    requires i < |p| && forall k, l :: 0 <= k < l < |p| ==> p[k] != p[l]
    ensures Position(p, p[i]) == i
  {
    if i > 0 { PositionOf(p[1..], i - 1); }
  }

  lemma {:induction false} PermutedSymmetric(a: Json, b: Json)
    requires Permuted(a, b)
    ensures Permuted(b, a)
    decreases a
  {
    match (a, b)
    case (Dict(fa), Dict(fb)) =>
      forall i | 0 <= i < |fa| ensures Permuted(fb[i].value, fa[i].value) {
        PermutedSymmetric(fa[i].value, fb[i].value);
      }
    case (List(ia), List(ib)) =>
      var p :| Permutation(p, |ia|) && forall i :: 0 <= i < |ia| ==> Permuted(ia[i], ib[p[i]]);
      var q := Inverse(p, |ia|);
      forall j | 0 <= j < |ib|
        ensures Permuted(ib[j], ia[q[j]])
      {
        var i := PermutationHits(p, |ia|, j);
        PermutedSymmetric(ia[i], ib[j]);
      }
    case _ =>
  }

  // Permuting any lists at any depth of a resource leaves its keyed leaves unchanged to
  // the letter, as long as no list of numbers behind a leaf spells one number two ways.
  lemma {:induction false} LeavesIgnoreOrder(a: Json, b: Json, prefix: string, r: Reader)
    requires Permuted(a, b) && ClearLeaves(a, prefix, r.rules) && Faithful(r) && Printed(a, r.worth)
    ensures Leaves(a, prefix, r) == Leaves(b, prefix, r)
    decreases a, 1
  {
    if a.Dict? && b.Dict? { FieldLeavesIgnoreOrder(a.fields, b.fields, prefix, r); }
  }

  lemma {:induction false} FieldLeavesIgnoreOrder(a: seq<Field>, b: seq<Field>, prefix: string, r: Reader)
    requires PermutedFields(a, b) && ClearFieldLeaves(a, prefix, r.rules) && Faithful(r) && Printed(Dict(a), r.worth)
    ensures FieldLeaves(a, prefix, r) == FieldLeaves(b, prefix, r)
    decreases a, 0
  {
    if a != [] {
      var n := |a| - 1;
      assert PermutedFields(a[..n], b[..n]) && Printed(Dict(a[..n]), r.worth);
      FieldLeavesIgnoreOrder(a[..n], b[..n], prefix, r);
      LeafIgnoresOrder(a[n].key, a[n].value, b[n].value, prefix, r);
    }
  }

  lemma PassedOverAlike(key: string, a: Json, b: Json, prefix: string, rules: Rules)
    requires Permuted(a, b)
    ensures PassedOver(key, a, prefix, rules) == PassedOver(key, b, prefix, rules)
  {
    KindKept(a, b);
    if a.List? && b.List? {
      PermutedSymmetric(a, b);
      LinksKept(a.items, b.items);
      LinksKept(b.items, a.items);
    }
  }

  lemma {:induction false} LeafIgnoresOrder(key: string, a: Json, b: Json, prefix: string, r: Reader)
    requires Permuted(a, b) && ClearLeaf(key, a, prefix, r.rules) && Faithful(r) && Printed(a, r.worth)
    ensures LeafOf(key, a, prefix, r) == LeafOf(key, b, prefix, r)
    decreases a, 2
  {
    PassedOverAlike(key, a, b, prefix, r.rules);
    if !PassedOver(key, a, prefix, r.rules) {
      KindKept(a, b);
      if a.Dict? {
        LeavesIgnoreOrder(a, b, Path(prefix, key), r);
      } else {
        ValueIgnoresOrder(a, b, r);
      }
    }
  }

  // ----- and only then ----------------------------------------------------------------------

  lemma {:induction false} PermutedReflexive(v: Json)
    ensures Permuted(v, v)
    decreases v
  {
    match v
    case Dict(fields) =>
      forall i | 0 <= i < |fields| ensures Permuted(fields[i].value, fields[i].value) {
        PermutedReflexive(fields[i].value);
      }
    case List(items) => IdentityPermutes(items, items);
    case _ =>
  }

  lemma {:induction false} IdentityPermutes(a: seq<Json>, b: seq<Json>)
    requires |a| == |b| && forall i :: 0 <= i < |a| ==> a[i] == b[i] || Permuted(a[i], b[i])
    ensures Permuted(List(a), List(b))
    decreases a
  {
    var p: seq<nat> := seq(|a|, i requires 0 <= i < |a| => i);
    forall i | 0 <= i < |a| ensures Permuted(a[i], b[p[i]]) { if a[i] == b[i] { PermutedReflexive(a[i]); } }
    assert Permutation(p, |a|);
  }

  // The elements of one value, in the order they stand.
  function Class(xs: seq<Json>, v: real): seq<Json> {
    if xs == [] then [] else OwnClass(xs[0], v) + Class(xs[1..], v)
  }

  // The class of a list from that of its head and its tail.
  function OwnClass(x: Json, v: real): seq<Json> { if NumberOf(x) == v then [x] else [] }

  lemma ClassCons(x: Json, rest: seq<Json>, v: real)
    ensures Class([x] + rest, v) == OwnClass(x, v) + Class(rest, v)
  {
    assert ([x] + rest)[1..] == rest;
  }

  lemma {:induction false} ClassAppend(a: seq<Json>, b: seq<Json>, v: real)
    ensures Class(a + b, v) == Class(a, v) + Class(b, v)
  {
    hide Class, OwnClass;
    if a == [] {
      ClassEmpty(v);
      assert a + b == b && [] + Class(b, v) == Class(b, v);
    } else {
      var own, rest := OwnClass(a[0], v), a[1..];
      assert a == [a[0]] + rest && a + b == [a[0]] + (rest + b);
      ClassAppend(rest, b, v);
      ClassCons(a[0], rest, v);
      ClassCons(a[0], rest + b, v);
      assert own + (Class(rest, v) + Class(b, v)) == (own + Class(rest, v)) + Class(b, v);
    }
  }

  lemma ClassEmpty(v: real)
    ensures Class([], v) == []
  {
  }

  lemma {:induction false} ClassAbsent(xs: seq<Json>, v: real)
    requires forall x :: x in xs ==> NumberOf(x) != v
    ensures Class(xs, v) == []
  {
    if xs != [] { ClassAbsent(xs[1..], v); }
  }

  lemma LargestIsAbsent(x: Json, sorted: seq<Json>)
    requires Sorting.Sorted(sorted, ByNumber) && sorted != [] && !ByNumber(sorted[0], x)
    ensures Class(sorted, NumberOf(x)) == []
  {
    forall y | y in sorted ensures NumberOf(y) != NumberOf(x) {
      var k :| 0 <= k < |sorted| && sorted[k] == y;
      assert k > 0 ==> ByNumber(sorted[0], sorted[k]);
    }
    ClassAbsent(sorted, NumberOf(x));
  }

  lemma {:induction false} InsertKeepsClass(x: Json, sorted: seq<Json>, v: real)
    requires Sorting.Sorted(sorted, ByNumber)
    ensures Class(Insert(x, sorted, ByNumber), v) == Class(sorted, v) + OwnClass(x, v)
  {
    hide Class, NumberOf, ByNumber, Sorting.Sorted;
    if sorted == [] {
      ClassEmpty(v);
      ClassCons(x, [], v);
      assert [x] + [] == [x] && OwnClass(x, v) + [] == OwnClass(x, v);
    } else if !ByNumber(sorted[0], x) {
      if NumberOf(x) == v { LargestIsAbsent(x, sorted); }
      ClassCons(x, sorted, v);
    } else {
      var own, rest := OwnClass(sorted[0], v), sorted[1..];
      assert sorted == [sorted[0]] + rest;
      ConsSorted(sorted[0], rest, ByNumber);
      InsertKeepsClass(x, rest, v);
      ClassCons(sorted[0], rest, v);
      ClassCons(sorted[0], Insert(x, rest, ByNumber), v);
      assert (own + Class(rest, v)) + OwnClass(x, v) == own + (Class(rest, v) + OwnClass(x, v));
    }
  }

  // Sorting is stable: equal numbers keep the order they came in.
  lemma {:induction false} SortIsStable(xs: seq<Json>, v: real)
    ensures Class(Sort(xs, ByNumber), v) == Class(xs, v)
  {
    hide Class, OwnClass, NumberOf, ByNumber, TotalOrder, Insert, Sorting.Sorted;
    if xs != [] {
      var n := |xs| - 1;
      NumbersAreOrdered();
      SortFacts(xs[..n], ByNumber);
      SortIsStable(xs[..n], v);
      InsertKeepsClass(xs[n], Sort(xs[..n], ByNumber), v);
      assert xs == xs[..n] + [xs[n]];
      ClassAppend(xs[..n], [xs[n]], v);
      ClassCons(xs[n], [], v);
      ClassEmpty(v);
      assert [xs[n]] + [] == [xs[n]] && OwnClass(xs[n], v) + [] == OwnClass(xs[n], v);
    }
  }

  lemma NumbersAreOrdered()
    ensures TotalOrder(ByNumber)
  {
  }

  lemma ClassHead(before: seq<Json>, x: Json, after: seq<Json>)
    ensures var c := Class(before + [x] + after, NumberOf(x));
            |Class(before, NumberOf(x))| < |c| && c[|Class(before, NumberOf(x))|] == x
  {
    ClassAppend(before + [x], after, NumberOf(x));
    ClassAppend(before, [x], NumberOf(x));
    assert [x][1..] == [];
  }

  lemma SwapSortsDifferently(items: seq<Json>, swapped: seq<Json>, i: nat, j: nat)
    requires i < j < |items| && NumberOf(items[i]) == NumberOf(items[j]) && items[i] != items[j]
    requires swapped == items[i := items[j]][j := items[i]]
    ensures Sort(items, ByNumber) != Sort(swapped, ByNumber)
  {
    hide Sort;
    var v := NumberOf(items[i]);
    assert items == items[..i] + [items[i]] + items[i + 1..];
    assert swapped == items[..i] + [items[j]] + swapped[i + 1..];
    ClassHead(items[..i], items[i], items[i + 1..]);
    ClassHead(items[..i], items[j], swapped[i + 1..]);
    SortIsStable(items, v);
    SortIsStable(swapped, v);
  }

  // Two spellings of one number, swapped, sort differently.
  lemma SwapShows(items: seq<Json>, i: nat, j: nat, r: Reader) returns (swapped: seq<Json>)
    requires i < j < |items| && AllNumbers(items) && NumberOf(items[i]) == NumberOf(items[j]) && items[i] != items[j]
    ensures Permuted(List(items), List(swapped))
    ensures SecuritySorted(ValueItems(items, r), r) != SecuritySorted(ValueItems(swapped, r), r)
  {
    hide Sort, Permuted, ValueItems, NumberOf;
    swapped := items[i := items[j]][j := items[i]];
    SwapPermutes(items, i, j);
    NumberItems(items, r);
    assert AllNumbers(swapped);
    NumberItems(swapped, r);
    assert items[i] in items && swapped[i] in swapped;
    SwapSortsDifferently(items, swapped, i, j);
  }

  lemma SwapPermutes(items: seq<Json>, i: nat, j: nat)
    requires i < j < |items|
    ensures Permuted(List(items), List(items[i := items[j]][j := items[i]]))
  {
    var swapped := items[i := items[j]][j := items[i]];
    var p: seq<nat> := seq(|items|, k requires 0 <= k < |items| => if k == i then j else if k == j then i else k);
    forall k | 0 <= k < |items| ensures Permuted(items[k], swapped[p[k]]) { PermutedReflexive(items[k]); }
    assert Permutation(p, |items|);
  }

  lemma NumberItems(items: seq<Json>, r: Reader)
    requires AllNumbers(items)
    ensures ValueItems(items, r) == items
  {
    forall i | 0 <= i < |items|
      ensures ValueItems(items, r)[i] == items[i]
    {
      assert items[i] in items;
      ValueItemsAt(items, r, i);
      NumbersStay(items[i], r);
    }
  }

  lemma SecuritySortedKeeps(values: seq<Json>, r: Reader)
    ensures multiset(SecuritySorted(values, r)) == multiset(values)
  {
    OrdersAreTotal(r);
    SortFacts(values, ByText);
    SortFacts(values, ByNumber);
    SortFacts(values, ByRepr(r));
  }

  // One element changed changes the sorted list.
  lemma ChangeShows(items: seq<Json>, k: nat, other: Json, r: Reader)
    requires k < |items| && SecurityValue(other, r) != SecurityValue(items[k], r)
    ensures SecuritySorted(ValueItems(items, r), r) != SecuritySorted(ValueItems(items[k := other], r), r)
  {
    var x, y := ValueItems(items, r), ValueItems(items[k := other], r);
    forall i | 0 <= i < |items| ensures y[i] == x[k := SecurityValue(other, r)][i] {
      ValueItemsAt(items, r, i);
      ValueItemsAt(items[k := other], r, i);
    }
    assert y == x[k := SecurityValue(other, r)];
    ValueItemsAt(items, r, k);
    MultisetChanges(x, k, SecurityValue(other, r));
    SecuritySortedKeeps(x, r);
    SecuritySortedKeeps(y, r);
  }

  lemma MultisetChanges<T>(xs: seq<T>, k: nat, y: T)
    requires k < |xs| && xs[k] != y
    ensures multiset(xs[k := y]) != multiset(xs)
  {
    assert multiset(xs[k := y]) == multiset(xs) - multiset{xs[k]} + multiset{y};
    assert multiset(xs[k := y])[y] == multiset(xs)[y] + 1;
  }

  lemma {:induction false} FieldChangeShows(fields: seq<Field>, k: nat, other: Json, r: Reader)
    requires k < |fields| && SecurityValue(other, r) != SecurityValue(fields[k].value, r)
    requires !Skipped(fields[k].key, fields[k].value, r.rules) && !Skipped(fields[k].key, other, r.rules)
    ensures var a, b := ValueFields(fields, r), ValueFields(fields[k := Field(fields[k].key, other)], r);
            |a| == |b| && exists i :: 0 <= i < |a| && a[i] != b[i] && b == a[i := b[i]]
  {
    hide SecurityValue, Skipped;
    var changed := fields[k := Field(fields[k].key, other)];
    var a, b := ValueFields(fields, r), ValueFields(changed, r);
    if k == 0 {
      assert changed[1..] == fields[1..];
      assert a[0] != b[0] && b == a[0 := b[0]];
    } else {
      assert changed[1..] == fields[1..][k - 1 := Field(fields[k].key, other)];
      FieldChangeShows(fields[1..], k - 1, other, r);
      var x, y := ValueFields(fields[1..], r), ValueFields(changed[1..], r);
      var i :| 0 <= i < |x| && x[i] != y[i] && y == x[i := y[i]];
      if Skipped(fields[0].key, fields[0].value, r.rules) {
        assert a == x && b == y;
      } else {
        assert a == [a[0]] + x && b == [a[0]] + y;
        assert a[i + 1] != b[i + 1] && b == a[i + 1 := b[i + 1]];
      }
    }
  }

  // A value that is not clear has lists whose order shows.
  lemma {:induction false} OrderShows(v: Json, r: Reader) returns (b: Json)
    requires !Clear(v, r.rules)
    ensures Permuted(v, b) && SecurityValue(b, r) != SecurityValue(v, r)
    decreases v
  {
    match v
    case List(items) =>
      if ClearNumbers(items) {
        var k :| 0 <= k < |items| && !Clear(items[k], r.rules);
        var other := OrderShows(items[k], r);
        b := List(items[k := other]);
        IdentityPermutes(items, items[k := other]);
        ChangeShows(items, k, other, r);
      } else {
        var i, j := TwoSpellings(items);
        var swapped := SwapShows(items, i, j, r);
        b := List(swapped);
      }
    case Dict(fields) =>
      var k :|
        0 <= k < |fields| && !Skipped(fields[k].key, fields[k].value, r.rules) && !Clear(fields[k].value, r.rules);
      var other := OrderShows(fields[k].value, r);
      b := FieldOrderShows(fields, k, other, r);
  }

  lemma TwoSpellings(items: seq<Json>) returns (i: nat, j: nat)
    requires !ClearNumbers(items)
    ensures i < j < |items| && AllNumbers(items) && NumberOf(items[i]) == NumberOf(items[j]) && items[i] != items[j]
  {
    var x, y :| x in items && y in items && NumberOf(x) == NumberOf(y) && x != y;
    i :| 0 <= i < |items| && items[i] == x;
    j :| 0 <= j < |items| && items[j] == y;
    if j < i { i, j := j, i; }
  }

  lemma FieldPermutes(fields: seq<Field>, k: nat, other: Json)
    requires k < |fields| && Permuted(fields[k].value, other)
    ensures Permuted(Dict(fields), Dict(fields[k := Field(fields[k].key, other)]))
  {
    forall i | 0 <= i < |fields| ensures Permuted(fields[i].value, fields[i].value) {
      PermutedReflexive(fields[i].value);
    }
  }

  lemma FieldsSortDifferently(x: seq<Field>, y: seq<Field>, i: nat)
    requires i < |x| == |y| && x[i] != y[i] && y == x[i := y[i]]
    ensures Sort(x, ByKey) != Sort(y, ByKey)
  {
    hide Sort;
    MultisetChanges(x, i, y[i]);
    KeysAreOrdered();
    SortFacts(x, ByKey);
    SortFacts(y, ByKey);
  }

  lemma KeysAreOrdered()
    ensures TotalOrder(ByKey)
  {
    forall a, b ensures Le(a, b) || Le(b, a) { LeTotal(a, b); }
    forall a, b, c | Le(a, b) && Le(b, c) ensures Le(a, c) { LeTransitive(a, b, c); }
  }

  lemma FieldOrderShows(fields: seq<Field>, k: nat, other: Json, r: Reader) returns (b: Json)
    requires k < |fields| && !Skipped(fields[k].key, fields[k].value, r.rules)
    requires Permuted(fields[k].value, other) && SecurityValue(other, r) != SecurityValue(fields[k].value, r)
    ensures Permuted(Dict(fields), b) && SecurityValue(b, r) != SecurityValue(Dict(fields), r)
  {
    hide Sort, Permuted, Skipped, ValueFields;
    var changed := fields[k := Field(fields[k].key, other)];
    b := Dict(changed);
    FieldPermutes(fields, k, other);
    SkippedAlike(fields[k].key, fields[k].value, other, r.rules);
    FieldChangeShows(fields, k, other, r);
    var x, y := ValueFields(fields, r), ValueFields(changed, r);
    var i :| 0 <= i < |x| && x[i] != y[i] && y == x[i := y[i]];
    FieldsSortDifferently(x, y, i);
  }

  lemma SkippedAlike(key: string, a: Json, b: Json, rules: Rules)
    requires Permuted(a, b)
    ensures Skipped(key, a, rules) == Skipped(key, b, rules)
  {
    KindKept(a, b);
  }

  // A leaf's value ignores the order of its lists, to the letter, exactly when it is clear.
  lemma OrderIgnoredExactlyWhenClear(v: Json, r: Reader)
    requires Faithful(r) && Printed(v, r.worth)
    ensures (forall b :: Permuted(v, b) ==> SecurityValue(b, r) == SecurityValue(v, r)) <==> Clear(v, r.rules)
  {
    if Clear(v, r.rules) {
      forall b | Permuted(v, b) ensures SecurityValue(b, r) == SecurityValue(v, r) { ValueIgnoresOrder(v, b, r); }
    } else {
      var b := OrderShows(v, r);
    }
  }
}
