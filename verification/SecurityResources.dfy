/** The keyed leaves of a vendor's security resource, as Python compares them: which lists'
    order shows in them, and a resource whose list order does. */
module SecurityResources {
  import opened Json
  import opened Lex
  import opened Payload
  import opened Scrub
  import opened Sorting
  import opened SecurityLeaves
  import opened SecurityOrder

  // ----- the leaves of a resource -----------------------------------------------------------------

  // The same paths, and values Python takes for equal.
  ghost predicate SameLeaves(x: map<string, Json>, y: map<string, Json>) {
    x.Keys == y.Keys && forall path :: path in x ==> Meaning(x[path]) == Meaning(y[path])
  }

  // Every leaf's value is settled; what yields no leaf does not matter.
  predicate SettledLeaves(node: Json, prefix: string, r: Reader)
    decreases node, 1
  {
    node.Dict? ==> SettledFieldLeaves(node.fields, prefix, r)
  }

  predicate SettledFieldLeaves(fields: seq<Field>, prefix: string, r: Reader)
    decreases fields, 0
  {
    forall i :: 0 <= i < |fields| ==> SettledLeaf(fields[i].key, fields[i].value, prefix, r)
  }

  predicate SettledLeaf(key: string, value: Json, prefix: string, r: Reader)
    decreases value, 2
  {
    PassedOver(key, value, prefix, r.rules)
    || (if value.Dict? then SettledLeaves(value, Path(prefix, key), r) else Settled(value, r))
  }

  lemma {:induction false} SettledLeavesStay(a: Json, b: Json, prefix: string, r: Reader)
    requires Permuted(a, b) && SettledLeaves(a, prefix, r) && Faithful(r) && Printed(a, r.worth)
    ensures SameLeaves(Leaves(a, prefix, r), Leaves(b, prefix, r))
    decreases a, 1
  {
    if a.Dict? && b.Dict? { SettledFieldLeavesStay(a.fields, b.fields, prefix, r); }
  }

  lemma {:induction false} SettledFieldLeavesStay(a: seq<Field>, b: seq<Field>, prefix: string, r: Reader)
    requires PermutedFields(a, b) && SettledFieldLeaves(a, prefix, r) && Faithful(r) && Printed(Dict(a), r.worth)
    ensures SameLeaves(FieldLeaves(a, prefix, r), FieldLeaves(b, prefix, r))
    decreases a, 0
  {
    hide Meaning, LeafOf;
    if a != [] {
      var n := |a| - 1;
      assert PermutedFields(a[..n], b[..n]) && SettledFieldLeaves(a[..n], prefix, r) && Printed(Dict(a[..n]), r.worth);
      SettledFieldLeavesStay(a[..n], b[..n], prefix, r);
      SettledLeafStays(a[n].key, a[n].value, b[n].value, prefix, r);
    }
  }

  lemma {:induction false} SettledLeafStays(key: string, a: Json, b: Json, prefix: string, r: Reader)
    requires Permuted(a, b) && SettledLeaf(key, a, prefix, r) && Faithful(r) && Printed(a, r.worth)
    ensures SameLeaves(LeafOf(key, a, prefix, r), LeafOf(key, b, prefix, r))
    decreases a, 2
  {
    PassedOverAlike(key, a, b, prefix, r.rules);
    if !PassedOver(key, a, prefix, r.rules) {
      KindKept(a, b);
      if a.Dict? {
        SettledLeavesStay(a, b, Path(prefix, key), r);
      } else {
        SettledKeepsMeaning(a, b, r);
      }
    }
  }

  // Property names are there, hold no dot and come once.
  predicate Named(v: Json) {
    match v
    case Dict(fields) =>
      && DistinctKeys(fields)
      && forall i :: 0 <= i < |fields| ==> PlainName(fields[i].key) && Named(fields[i].value)
    case _ => true
  }

  predicate PlainName(key: string) { key != "" && '.' !in key }

  // The path of a property, or of something within it.
  predicate Under(path: string, top: string) { path == top || top + "." <= path }

  lemma {:induction false} LeafPaths(key: string, value: Json, prefix: string, r: Reader, path: string)
    requires Path(prefix, key) != "" && path in LeafOf(key, value, prefix, r)
    ensures Under(path, Path(prefix, key))
    decreases value, 2
  {
    if !PassedOver(key, value, prefix, r.rules) && value.Dict? {
      FieldPaths(value.fields, Path(prefix, key), r, path);
    }
  }

  lemma {:induction false} FieldPaths(fields: seq<Field>, top: string, r: Reader, path: string)
    requires top != "" && path in FieldLeaves(fields, top, r)
    ensures Under(path, top)
    decreases fields, 0
  {
    hide LeafOf;
    var n := |fields| - 1;
    if path in LeafOf(fields[n].key, fields[n].value, top, r) {
      LeafPaths(fields[n].key, fields[n].value, top, r, path);
      assert top + "." <= Path(top, fields[n].key);
    } else {
      FieldPaths(fields[..n], top, r, path);
    }
  }

  // Different properties have different paths.
  lemma PathsApart(prefix: string, k: string, l: string, path: string)
    requires PlainName(k) && PlainName(l) && Under(path, Path(prefix, k)) && Under(path, Path(prefix, l))
    ensures k == l
  {
    var base := if prefix == "" then "" else prefix + ".";
    assert Path(prefix, k) == base + k && Path(prefix, l) == base + l;
    var rest := path[|base|..];
    UnderRest(path, base, k);
    UnderRest(path, base, l);
    NamesApart(rest, k, l);
    NamesApart(rest, l, k);
  }

  lemma UnderRest(path: string, base: string, k: string)
    requires Under(path, base + k)
    ensures |base| <= |path| && Under(path[|base|..], k)
  {
    if path != base + k {
      assert base + k + "." == base + (k + ".");
      assert path[..|base| + |k| + 1] == base + (k + ".");
      assert path[|base|..][..|k| + 1] == k + ".";
    }
  }

  lemma UnderPrefix(rest: string, k: string)
    requires Under(rest, k)
    ensures |k| <= |rest| && rest[..|k|] == k && (|k| < |rest| ==> rest[|k|] == '.')
  {
    if rest != k {
      assert rest[..|k| + 1] == k + ".";
      assert rest[..|k|] == rest[..|k| + 1][..|k|];
    }
  }

  lemma NamesApart(rest: string, k: string, l: string)
    requires PlainName(k) && PlainName(l) && Under(rest, k) && Under(rest, l)
    ensures |k| >= |l|
    ensures |k| == |l| ==> k == l
  {
    UnderPrefix(rest, k);
    UnderPrefix(rest, l);
  }

  lemma {:induction false} FieldLeavesAt(fields: seq<Field>, k: nat, prefix: string, r: Reader, path: string)
    requires k < |fields| && DistinctKeys(fields) && forall i :: 0 <= i < |fields| ==> PlainName(fields[i].key)
    requires path in LeafOf(fields[k].key, fields[k].value, prefix, r)
    ensures path in FieldLeaves(fields, prefix, r)
    ensures FieldLeaves(fields, prefix, r)[path] == LeafOf(fields[k].key, fields[k].value, prefix, r)[path]
  {
    hide LeafOf, Under, Path;
    var n := |fields| - 1;
    if k < n {
      NonemptyPath(prefix, fields[k].key);
      NonemptyPath(prefix, fields[n].key);
      LeafPaths(fields[k].key, fields[k].value, prefix, r, path);
      if path in LeafOf(fields[n].key, fields[n].value, prefix, r) {
        LeafPaths(fields[n].key, fields[n].value, prefix, r, path);
        PathsApart(prefix, fields[k].key, fields[n].key, path);
        assert false;
      }
      FieldLeavesAt(fields[..n], k, prefix, r, path);
    }
  }

  lemma NonemptyPath(prefix: string, key: string)
    requires key != ""
    ensures Path(prefix, key) != ""
  {
  }

  // A resource with a leaf that is not settled has a leaf whose list order shows.
  lemma {:induction false} UnsettledLeafShows(a: Json, prefix: string, r: Reader) returns (b: Json, path: string)
    requires !SettledLeaves(a, prefix, r) && Faithful(r) && Printed(a, r.worth) && Named(a)
    ensures Permuted(a, b)
    ensures path in Leaves(a, prefix, r) && path in Leaves(b, prefix, r)
    ensures Meaning(Leaves(a, prefix, r)[path]) != Meaning(Leaves(b, prefix, r)[path])
    decreases a
  {
    hide Permuted, Meaning, Settled, SecurityValue, Faithful, LeafOf;
    var fields := a.fields;
    var k :| 0 <= k < |fields| && !SettledLeaf(fields[k].key, fields[k].value, prefix, r);
    var key, value := fields[k].key, fields[k].value;
    var other: Json;
    if value.Dict? {
      other, path := UnsettledLeafShows(value, Path(prefix, key), r);
    } else {
      other := UnsettledShows(value, r);
      path := Path(prefix, key);
    }
    ChangedLeaf(key, value, other, prefix, r, path);
    var changed := fields[k := Field(key, other)];
    b := Dict(changed);
    FieldPermutes(fields, k, other);
    FieldLeavesAt(fields, k, prefix, r, path);
    assert forall i :: 0 <= i < |fields| ==> changed[i].key == fields[i].key;
    FieldLeavesAt(changed, k, prefix, r, path);
  }

  lemma ChangedLeaf(key: string, value: Json, other: Json, prefix: string, r: Reader, path: string)
    requires !PassedOver(key, value, prefix, r.rules) && Permuted(value, other)
    requires
      if value.Dict? then
        var (x, y) := (Leaves(value, Path(prefix, key), r), Leaves(other, Path(prefix, key), r));
        path in x && path in y && Meaning(x[path]) != Meaning(y[path])
      else path == Path(prefix, key) && ValueMeaning(other, r) != ValueMeaning(value, r)
    ensures var (x, y) := (LeafOf(key, value, prefix, r), LeafOf(key, other, prefix, r));
      path in x && path in y && Meaning(x[path]) != Meaning(y[path])
  {
    hide Permuted, Meaning, SecurityValue, PassedOver;
    PassedOverAlike(key, value, other, prefix, r.rules);
    KindKept(value, other);
  }

  // The leaves of a resource, as Python compares them, ignore the order of every list in it
  // exactly when each leaf is settled.
  lemma LeavesIgnoreOrderExactly(a: Json, prefix: string, r: Reader)
    requires Faithful(r) && Printed(a, r.worth) && Named(a)
    ensures (forall b :: Permuted(a, b) ==> SameLeaves(Leaves(a, prefix, r), Leaves(b, prefix, r)))
       <==> SettledLeaves(a, prefix, r)
  {
    hide Permuted, Faithful, Printed, Leaves, SettledLeaves;
    if SettledLeaves(a, prefix, r) {
      forall b | Permuted(a, b) ensures SameLeaves(Leaves(a, prefix, r), Leaves(b, prefix, r)) {
        SettledLeavesStay(a, b, prefix, r);
      }
    } else {
      var b, path := UnsettledLeafShows(a, prefix, r);
    }
  }

  // ----- a resource whose list order shows ------------------------------------------------------------

  // An integer and the float that equals it, as Python prints them.
  const ONE := Num(1.0, "1")
  const ONE_FLOAT := Num(1.0, "1.0")
  const TWO := Num(2.0, "2")

  function Ports(first: Json, second: Json): Json {
    Dict([Field("Ports", List([List([first, second]), List([ONE, TWO])]))])
  }

  lemma SwappedSpellings()
    ensures Permuted(List([List([ONE, ONE_FLOAT]), List([ONE, TWO])]), List([List([ONE_FLOAT, ONE]), List([ONE, TWO])]))
  {
    SwapPermutes([ONE, ONE_FLOAT], 0, 1);
    assert [ONE, ONE_FLOAT][0 := ONE_FLOAT][1 := ONE] == [ONE_FLOAT, ONE];
    IdentityPermutes([List([ONE, ONE_FLOAT]), List([ONE, TWO])], [List([ONE_FLOAT, ONE]), List([ONE, TWO])]);
  }

  lemma SwappedPorts()
    ensures Permuted(Ports(ONE, ONE_FLOAT), Ports(ONE_FLOAT, ONE))
  {
    hide Permuted;
    var a, b := List([List([ONE, ONE_FLOAT]), List([ONE, TWO])]), List([List([ONE_FLOAT, ONE]), List([ONE, TWO])]);
    SwappedSpellings();
    FieldPermutes([Field("Ports", a)], 0, b);
    assert [Field("Ports", a)][0 := Field("Ports", b)] == [Field("Ports", b)];
  }

  lemma SwappedValues(r: Reader)
    requires r.repr(List([ONE, ONE_FLOAT])) == "[1, 1.0]" && r.repr(List([ONE_FLOAT, ONE])) == "[1.0, 1]"
    requires r.repr(List([ONE, TWO])) == "[1, 2]"
    ensures SecurityValue(List([List([ONE, ONE_FLOAT]), List([ONE, TWO])]), r)
         == List([List([ONE, ONE_FLOAT]), List([ONE, TWO])])
    ensures SecurityValue(List([List([ONE_FLOAT, ONE]), List([ONE, TWO])]), r)
         == List([List([ONE, TWO]), List([ONE_FLOAT, ONE])])
  {
    hide SecurityValue, Le;
    PairOfNumbers(ONE, ONE_FLOAT, r);
    PairOfNumbers(ONE_FLOAT, ONE, r);
    PairOfNumbers(ONE, TWO, r);
    SpelledOrder();
    PairOfLists(List([ONE, ONE_FLOAT]), List([ONE, TWO]), r);
    PairOfLists(List([ONE_FLOAT, ONE]), List([ONE, TWO]), r);
  }

  lemma SwappedMeanings()
    ensures Meaning(List([List([ONE, ONE_FLOAT]), List([ONE, TWO])]))
         != Meaning(List([List([ONE, TWO]), List([ONE_FLOAT, ONE])]))
  {
    hide Meaning;
    NumberMeanings();
    PairMeanings(List([ONE, ONE_FLOAT]), List([ONE, TWO]));
    PairMeanings(List([ONE, TWO]), List([ONE_FLOAT, ONE]));
    PairMeanings(ONE, ONE_FLOAT);
    PairMeanings(ONE, TWO);
    var one, two := List([Num(1.0, ""), Num(1.0, "")]), List([Num(1.0, ""), Num(2.0, "")]);
    assert one.items[1] != two.items[1];
    assert [Meaning(List([ONE, ONE_FLOAT])), Meaning(List([ONE, TWO]))][0] == one;
    assert [Meaning(List([ONE, TWO])), Meaning(List([ONE_FLOAT, ONE]))][0] == two;
  }

  // One resource, its lists [1, 1.0] and [1, 2] served with the first one's numbers either
  // way round. Sorted by `repr`, [1, 2] lands after one spelling and before the other, so
  // the leaf of the one says [[1, 1], [1, 2]] where that of the other says [[1, 2], [1, 1]].
  lemma SpellingsOfOneNumberShow(r: Reader, rewriteUrls: string -> string)
    requires r.rules == RedfishRules(rewriteUrls)
    requires r.repr(List([ONE, ONE_FLOAT])) == "[1, 1.0]" && r.repr(List([ONE_FLOAT, ONE])) == "[1.0, 1]"
    requires r.repr(List([ONE, TWO])) == "[1, 2]"
    ensures var (a, b) := (Ports(ONE, ONE_FLOAT), Ports(ONE_FLOAT, ONE));
      && Permuted(a, b)
      && Leaves(a, "", r) == map["Ports" := List([List([ONE, ONE_FLOAT]), List([ONE, TWO])])]
      && Leaves(b, "", r) == map["Ports" := List([List([ONE, TWO]), List([ONE_FLOAT, ONE])])]
      && !SameLeaves(Leaves(a, "", r), Leaves(b, "", r))
  {
    hide SecurityValue, Permuted, Le, Meaning, Leaves, RedfishRules;
    SwappedPorts();
    SwappedValues(r);
    SwappedMeanings();
    PortsLeaf(List([List([ONE, ONE_FLOAT]), List([ONE, TWO])]), r, rewriteUrls);
    PortsLeaf(List([List([ONE_FLOAT, ONE]), List([ONE, TWO])]), r, rewriteUrls);
    assert "Ports" in Leaves(Ports(ONE, ONE_FLOAT), "", r);
  }

  lemma PairMeanings(a: Json, b: Json)
    ensures Meaning(List([a, b])) == List([Meaning(a), Meaning(b)])
  {
    assert [a, b][1..] == [b] && [b][1..] == [];
    assert MeaningItems([a, b]) == [Meaning(a)] + ([Meaning(b)] + MeaningItems([]));
  }

  lemma NumberMeanings()
    ensures Meaning(ONE) == Meaning(ONE_FLOAT) == Num(1.0, "") && Meaning(TWO) == Num(2.0, "")
  {
  }

  lemma PortsAreKept(value: Json, r: Reader, rewriteUrls: string -> string)
    requires r.rules == RedfishRules(rewriteUrls)
    ensures !Skipped("Ports", value, r.rules)
  {
    assert Lower("Ports") == "ports";
    assert !EndsWith("ports", "password");
  }

  lemma PortsLeaf(value: Json, r: Reader, rewriteUrls: string -> string)
    requires r.rules == RedfishRules(rewriteUrls) && value.List? && |value.items| > 0 && !value.items[0].Dict?
    ensures Leaves(Dict([Field("Ports", value)]), "", r) == map["Ports" := SecurityValue(value, r)]
  {
    hide SecurityValue, Skipped, RedfishRules;
    PortsAreKept(value, r, rewriteUrls);
    var fields := [Field("Ports", value)];
    assert !IsLink(value.items[0]);
    assert fields[..0] == [];
    assert LeafOf("Ports", value, "", r) == map["Ports" := SecurityValue(value, r)];
    assert FieldLeaves(fields, "", r) == FieldLeaves([], "", r) + LeafOf("Ports", value, "", r);
  }

  lemma SpelledOrder()
    ensures Le("[1, 1.0]", "[1, 2]") && !Le("[1.0, 1]", "[1, 2]")
  {
    var a, b, c := "[1, 1.0]", "[1, 2]", "[1.0, 1]";
    assert Le(a[4..], b[4..]);
    assert Le(a[3..], b[3..]) by { assert a[3..][1..] == a[4..] && b[3..][1..] == b[4..]; }
    assert Le(a[2..], b[2..]) by { assert a[2..][1..] == a[3..] && b[2..][1..] == b[3..]; }
    assert Le(a[1..], b[1..]) by { assert a[1..][1..] == a[2..] && b[1..][1..] == b[2..]; }
    assert !Le(c[2..], b[2..]);
    assert !Le(c[1..], b[1..]) by { assert c[1..][1..] == c[2..] && b[1..][1..] == b[2..]; }
  }

  lemma PairOfNumbers(a: Json, b: Json, r: Reader)
    requires a.Num? && b.Num? && NumberOf(a) <= NumberOf(b)
    ensures SecurityValue(List([a, b]), r) == List([a, b])
  {
    NumberItems([a, b], r);
    assert a in [a, b];
    PairSorts(a, b, ByNumber);
  }

  lemma PairOfLists(a: Json, b: Json, r: Reader)
    requires a.List? && b.List? && SecurityValue(a, r) == a && SecurityValue(b, r) == b
    ensures SecurityValue(List([a, b]), r) == List(if Le(r.repr(a), r.repr(b)) then [a, b] else [b, a])
  {
    hide Sort, Le;
    var items := [a, b];
    assert items[1..] == [b] && [b][1..] == [];
    assert ValueItems(items, r) == [SecurityValue(a, r)] + ValueItems([b], r);
    assert ValueItems([b], r) == [SecurityValue(b, r)] + ValueItems([], r);
    assert ValueItems(items, r) == items && a in items;
    PairSorts(a, b, ByRepr(r));
  }

  lemma PairSorts(a: Json, b: Json, le: (Json, Json) -> bool)
    ensures Sort([a, b], le) == if le(a, b) then [a, b] else [b, a]
  {
    assert [a, b][..1] == [a] && [a][..0] == [];
    assert Sort([a], le) == Insert(a, [], le) == [a];
    assert [a][1..] == [];
    assert Insert(b, [a], le) == if le(a, b) then [a] + Insert(b, [], le) else [b] + [a];
  }

  // ----- readers there are --------------------------------------------------------------------------

  // A way to print that tells every two values apart, numbers by their text: what is
  // asked of `repr` can be had.
  function Framed(s: string): string {
    if s == "" then "." else "," + [s[0]] + Framed(s[1..])
  }

  function Encoded(v: Json): string
    decreases v, 1
  {
    match v
    case Null => "n"
    case Bool(b) => if b then "t" else "f"
    case Num(_, text) => "d" + Framed(text)
    case Str(s) => "s" + Framed(s)
    case List(items) => "l" + EncodedItems(items)
    case Dict(fields) => "o" + EncodedFields(fields)
  }

  function EncodedItems(items: seq<Json>): string
    decreases items, 0
  {
    if items == [] then "." else "," + Encoded(items[0]) + EncodedItems(items[1..])
  }

  function EncodedFields(fields: seq<Field>): string
    decreases fields, 0
  {
    if fields == [] then "."
    else "," + (Framed(fields[0].key) + Encoded(fields[0].value)) + EncodedFields(fields[1..])
  }

  lemma AfterHead(c: string, a: string, s: string, b: string, t: string)
    requires |c| == 1 && (c + a) + s == (c + b) + t
    ensures a + s == b + t
  {
    assert ((c + a) + s)[1..] == a + s && ((c + b) + t)[1..] == b + t;
  }

  lemma {:induction false} FramedReads(a: string, b: string, s: string, t: string)
    requires Framed(a) + s == Framed(b) + t
    ensures a == b && s == t
  {
    var x, y := Framed(a) + s, Framed(b) + t;
    assert x[0] == y[0];
    if a == "" {
      assert x[1..] == s && y[1..] == t;
    } else {
      assert x[1] == a[0] && y[1] == b[0];
      assert x[2..] == Framed(a[1..]) + s && y[2..] == Framed(b[1..]) + t;
      FramedReads(a[1..], b[1..], s, t);
      assert a == [a[0]] + a[1..] && b == [b[0]] + b[1..];
    }
  }

  lemma {:induction false} EncodedReads(a: Json, b: Json, worth: string -> real, s: string, t: string)
    requires Printed(a, worth) && Printed(b, worth) && Encoded(a) + s == Encoded(b) + t
    ensures a == b && s == t
    decreases a, 1
  {
    var x, y := Encoded(a) + s, Encoded(b) + t;
    assert x[0] == Encoded(a)[0] && y[0] == Encoded(b)[0];
    match a
    case Num(_, text) => AfterHead("d", Framed(text), s, Framed(b.text), t); FramedReads(text, b.text, s, t);
    case Str(text) => AfterHead("s", Framed(text), s, Framed(b.s), t); FramedReads(text, b.s, s, t);
    case List(items) =>
      AfterHead("l", EncodedItems(items), s, EncodedItems(b.items), t);
      EncodedItemsRead(items, b.items, worth, s, t);
    case Dict(fields) =>
      AfterHead("o", EncodedFields(fields), s, EncodedFields(b.fields), t);
      EncodedFieldsRead(fields, b.fields, worth, s, t);
    case _ => assert x[1..] == s && y[1..] == t;
  }

  lemma {:induction false} EncodedItemsRead(a: seq<Json>, b: seq<Json>, worth: string -> real, s: string, t: string)
    requires Printed(List(a), worth) && Printed(List(b), worth) && EncodedItems(a) + s == EncodedItems(b) + t
    ensures a == b && s == t
    decreases a, 0
  {
    hide Encoded;
    var x, y := EncodedItems(a) + s, EncodedItems(b) + t;
    assert x[0] == y[0];
    if a == [] {
      assert x[1..] == s && y[1..] == t;
    } else {
      assert x[1..] == Encoded(a[0]) + (EncodedItems(a[1..]) + s);
      assert y[1..] == Encoded(b[0]) + (EncodedItems(b[1..]) + t);
      EncodedReads(a[0], b[0], worth, EncodedItems(a[1..]) + s, EncodedItems(b[1..]) + t);
      assert Printed(List(a[1..]), worth) && Printed(List(b[1..]), worth);
      EncodedItemsRead(a[1..], b[1..], worth, s, t);
      assert a == [a[0]] + a[1..] && b == [b[0]] + b[1..];
    }
  }

  lemma {:induction false} EncodedFieldsRead(a: seq<Field>, b: seq<Field>, worth: string -> real, s: string, t: string)
    requires Printed(Dict(a), worth) && Printed(Dict(b), worth) && EncodedFields(a) + s == EncodedFields(b) + t
    ensures a == b && s == t
    decreases a, 0
  {
    hide Encoded, Framed;
    var x, y := EncodedFields(a) + s, EncodedFields(b) + t;
    assert x[0] == y[0];
    if a == [] {
      assert x[1..] == s && y[1..] == t;
    } else {
      var afterA, afterB := EncodedFields(a[1..]) + s, EncodedFields(b[1..]) + t;
      assert x[1..] == Framed(a[0].key) + (Encoded(a[0].value) + afterA);
      assert y[1..] == Framed(b[0].key) + (Encoded(b[0].value) + afterB);
      FramedReads(a[0].key, b[0].key, Encoded(a[0].value) + afterA, Encoded(b[0].value) + afterB);
      EncodedReads(a[0].value, b[0].value, worth, afterA, afterB);
      assert Printed(Dict(a[1..]), worth) && Printed(Dict(b[1..]), worth);
      EncodedFieldsRead(a[1..], b[1..], worth, s, t);
      assert a == [a[0]] + a[1..] && b == [b[0]] + b[1..];
    }
  }

  lemma FaithfulReaders(rules: Rules, worth: string -> real)
    ensures Faithful(Reader(rules, Encoded, worth))
  {
    hide Encoded, Printed;
    forall x, y | Printed(x, worth) && Printed(y, worth) && Encoded(x) == Encoded(y) ensures x == y {
      EncodedReads(x, y, worth, "", "");
    }
  }
}
