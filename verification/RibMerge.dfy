/** One entry per prefix out of every route of every rib, and the counts rolled up from it. */
module RibMerge {
  import opened Basics
  import opened Json
  import opened Payload

  const STATE := "ietf-routing:routing-state"

  // What is kept of a route: its protocol, and the facets that are copied.
  datatype Entry = Entry(protocol: Option<string>, preference: Json, nextHops: Json)

  datatype Route = Route(key: string, active: bool, entry: Entry)

  // Python's `str`, and the reading of a route's leaves.
  datatype Reader = Reader(str: Json -> string, describe: Json -> Entry)

  // A payload whose container is neither a dictionary nor empty cannot be read.
  datatype NotADictionary = NotADictionary

  predicate Has(fields: seq<Field>, key: string) { Find(fields, key).Some? }

  function AsDict(node: Json): Json { if node.Dict? then node else Dict([]) }

  function Container(payload: Json): Json {
    if payload.Dict? && Has(payload.fields, STATE) then At(payload, STATE) else At(payload, "routing-state")
  }

  function VrfOf(instance: Json, r: Reader): string {
    if Truthy(At(instance, "name")) then StrOf(At(instance, "name"), r.str) else "default"
  }

  // ----- every route, in the order they are met --------------------------------------------

  function RoutesOf(vrf: string, route: Json, r: Reader): seq<Route> {
    if !route.Dict? || At(route, "destination-prefix") == Null then []
    else [Route(vrf + "|" + StrOf(At(route, "destination-prefix"), r.str), Has(route.fields, "active"),
                r.describe(route))]
  }

  function RoutesOfAll(vrf: string, routes: seq<Json>, r: Reader): seq<Route> {
    if routes == [] then []
    else RoutesOfAll(vrf, routes[..|routes| - 1], r) + RoutesOf(vrf, routes[|routes| - 1], r)
  }

  function RoutesOfRib(vrf: string, rib: Json, r: Reader): seq<Route> {
    if !rib.Dict? then [] else RoutesOfAll(vrf, AsList(At(AsDict(At(rib, "routes")), "route")), r)
  }

  function RoutesOfRibs(vrf: string, ribs: seq<Json>, r: Reader): seq<Route> {
    if ribs == [] then []
    else RoutesOfRibs(vrf, ribs[..|ribs| - 1], r) + RoutesOfRib(vrf, ribs[|ribs| - 1], r)
  }

  function RoutesOfInstance(instance: Json, r: Reader): seq<Route> {
    if !instance.Dict? then []
    else RoutesOfRibs(VrfOf(instance, r), AsList(At(AsDict(At(instance, "ribs")), "rib")), r)
  }

  function RoutesOfInstances(instances: seq<Json>, r: Reader): seq<Route> {
    if instances == [] then []
    else RoutesOfInstances(instances[..|instances| - 1], r) + RoutesOfInstance(instances[|instances| - 1], r)
  }

  // ----- merging -----------------------------------------------------------------------------

  datatype Merge = Merge(normalized: map<string, Entry>, seenActive: map<string, bool>)

  const NOTHING := Merge(map[], map[])

  function Merged(m: Merge, route: Route): Merge {
    if route.key in m.seenActive && m.seenActive[route.key] && !route.active then m
    else Merge(m.normalized[route.key := route.entry], m.seenActive[route.key := route.active])
  }

  function MergedAll(m: Merge, routes: seq<Route>): Merge {
    if routes == [] then m else Merged(MergedAll(m, routes[..|routes| - 1]), routes[|routes| - 1])
  }

  lemma {:induction false} MergedInTurn(m: Merge, a: seq<Route>, b: seq<Route>)
    ensures MergedAll(MergedAll(m, a), b) == MergedAll(m, a + b)
  {
    if b == [] {
      assert a + b == a;
    } else {
      MergedInTurn(m, a, b[..|b| - 1]);
      assert (a + b)[..|a + b| - 1] == a + b[..|b| - 1];
    }
  }

  // One more route of a rib: merged when it is one, passed over when it names no prefix.
  lemma MergedOneMore(m: Merge, vrf: string, routes: seq<Json>, i: nat, r: Reader)
    requires i < |routes|
    ensures var (before, after) := (MergedAll(m, RoutesOfAll(vrf, routes[..i], r)),
                                    MergedAll(m, RoutesOfAll(vrf, routes[..i + 1], r)));
      var one := RoutesOf(vrf, routes[i], r);
      after == if one == [] then before else Merged(before, one[0])
  {
    hide RoutesOf, Merged;
    assert routes[..i + 1][..i] == routes[..i];
    var one := RoutesOf(vrf, routes[i], r);
    MergedInTurn(m, RoutesOfAll(vrf, routes[..i], r), one);
    if one != [] {
      AtMostOne(vrf, routes[i], r);
      assert one[..0] == [];
    }
  }

  lemma AtMostOne(vrf: string, route: Json, r: Reader)
    ensures |RoutesOf(vrf, route, r)| <= 1
  {
  }

  method MergeRib(m: Merge, vrf: string, rib: Json, r: Reader) returns (merged: Merge)
    ensures merged == MergedAll(m, RoutesOfRib(vrf, rib, r))
  {
    hide AsList, AsDict, At, MergedAll, RoutesOfAll;
    if !rib.Dict? {
      MergedNone(m, vrf, r);
      return m;
    }
    var normalized, seenActive := m.normalized, m.seenActive;
    var routes := AsList(At(AsDict(At(rib, "routes")), "route"));
    MergedNone(m, vrf, r);
    assert routes[..0] == [];
    for i := 0 to |routes|
      invariant Merge(normalized, seenActive) == MergedAll(m, RoutesOfAll(vrf, routes[..i], r))
    {
      MergedOneMore(m, vrf, routes, i, r);
      var prefix := At(routes[i], "destination-prefix");
      if routes[i].Dict? && prefix != Null {
        var key := vrf + "|" + StrOf(prefix, r.str);
        var isActive := Has(routes[i].fields, "active");
        if !(key in seenActive && seenActive[key] && !isActive) {
          normalized := normalized[key := r.describe(routes[i])];
          seenActive := seenActive[key := isActive];
        }
      }
    }
    assert routes[..|routes|] == routes;
    merged := Merge(normalized, seenActive);
  }

  lemma MergedNone(m: Merge, vrf: string, r: Reader)
    ensures MergedAll(m, []) == m && RoutesOfAll(vrf, [], r) == []
  {
  }

  method MergeInstance(m: Merge, instance: Json, r: Reader) returns (merged: Merge)
    ensures merged == MergedAll(m, RoutesOfInstance(instance, r))
  {
    hide AsList, AsDict, VrfOf, RoutesOfRib;
    merged := m;
    if !instance.Dict? {
      return;
    }
    var vrf := VrfOf(instance, r);
    var ribs := AsList(At(AsDict(At(instance, "ribs")), "rib"));
    for i := 0 to |ribs|
      invariant merged == MergedAll(m, RoutesOfRibs(vrf, ribs[..i], r))
    {
      assert ribs[..i + 1][..i] == ribs[..i];
      MergedInTurn(m, RoutesOfRibs(vrf, ribs[..i], r), RoutesOfRib(vrf, ribs[i], r));
      merged := MergeRib(merged, vrf, ribs[i], r);
    }
    assert ribs[..|ribs|] == ribs;
  }

  // `_normalize_rib`
  method NormalizeRib(payload: Json, r: Reader) returns (result: Result<map<string, Entry>, NotADictionary>)
    ensures result.Err? <==> Truthy(Container(payload)) && !Container(payload).Dict?
    ensures result.Ok? ==> result.value == MergedAll(NOTHING, AllRoutes(payload, r)).normalized
  {
    hide AsList, AsDict, RoutesOfInstance;
    var container := Container(payload);
    if Truthy(container) && !container.Dict? {
      return Err(NotADictionary);
    }
    var merge := NOTHING;
    var instances := AsList(At(container, "routing-instance"));
    for i := 0 to |instances|
      invariant merge == MergedAll(NOTHING, RoutesOfInstances(instances[..i], r))
    {
      assert instances[..i + 1][..i] == instances[..i];
      MergedInTurn(NOTHING, RoutesOfInstances(instances[..i], r), RoutesOfInstance(instances[i], r));
      merge := MergeInstance(merge, instances[i], r);
    }
    assert instances[..|instances|] == instances;
    result := Ok(merge.normalized);
  }

  // The routes of all ribs of all instances, in the order they are served.
  function AllRoutes(payload: Json, r: Reader): seq<Route> {
    RoutesOfInstances(AsList(At(Container(payload), "routing-instance")), r)
  }

  // ----- what an entry is -------------------------------------------------------------------

  // The last active route for the prefix, or the last one when none is active.
  ghost predicate Chosen(routes: seq<Route>, i: nat)
    requires i < |routes|
  {
    forall j :: 0 <= j < |routes| && routes[j].key == routes[i].key ==>
      (routes[i].active ==> (i < j ==> !routes[j].active))
      && (!routes[i].active ==> !routes[j].active && j <= i)
  }

  lemma {:induction false} SeenMeans(routes: seq<Route>, key: string)
    ensures var seen := MergedAll(NOTHING, routes).seenActive;
      && (key in seen <==> exists j :: 0 <= j < |routes| && routes[j].key == key)
      && (key in seen && seen[key] <==> exists j :: 0 <= j < |routes| && routes[j].key == key && routes[j].active)
      && MergedAll(NOTHING, routes).normalized.Keys == seen.Keys
  {
    if routes != [] {
      var n := |routes| - 1;
      SeenMeans(routes[..n], key);
      assert forall j :: 0 <= j < n ==> routes[..n][j] == routes[j];
      var before, after := MergedAll(NOTHING, routes[..n]), MergedAll(NOTHING, routes);
      assert after == Merged(before, routes[n]);
    }
  }

  // The installed route is never masked by a backup: each prefix shows its chosen route.
  lemma {:induction false} EntryIsChosen(routes: seq<Route>, i: nat)
    requires i < |routes| && Chosen(routes, i)
    ensures var rib := MergedAll(NOTHING, routes).normalized;
      routes[i].key in rib && rib[routes[i].key] == routes[i].entry
  {
    var n := |routes| - 1;
    var before := MergedAll(NOTHING, routes[..n]);
    SeenMeans(routes[..n], routes[i].key);
    assert forall j :: 0 <= j < n ==> routes[..n][j] == routes[j];
    if i < n {
      EntryIsChosen(routes[..n], i);
      assert routes[..n][i] == routes[i];
    }
  }

  // Every prefix that any route carries has a chosen route, and no other prefix an entry.
  lemma {:induction false} EveryPrefixHasOne(routes: seq<Route>, key: string)
    ensures key in MergedAll(NOTHING, routes).normalized
       <==> exists i: nat :: i < |routes| && routes[i].key == key && Chosen(routes, i)
  {
    SeenMeans(routes, key);
    if j :| 0 <= j < |routes| && routes[j].key == key {
      var i := ChoiceOf(routes, key, |routes|, j);
      assert Chosen(routes, i);
    }
  }

  // The chosen among the first `n`, of which `j` is one.
  lemma {:induction false} ChoiceOf(routes: seq<Route>, key: string, n: nat, j: nat) returns (i: nat)
    requires j < n <= |routes| && routes[j].key == key
    ensures i < n && routes[i].key == key && Chosen(routes[..n], i)
  {
    var last := routes[n - 1];
    if last.key == key && last.active {
      i := n - 1;
    } else if k: nat :| k < n - 1 && routes[k].key == key {
      i := ChoiceOf(routes, key, n - 1, k);
      if last.key == key && !routes[i].active {
        assert routes[..n - 1][i] == routes[i];
        i := n - 1;
        assert forall q :: 0 <= q < n - 1 ==> routes[..n - 1][q] == routes[..n][q];
      }
    } else {
      i := n - 1;
    }
    assert forall q :: 0 <= q < n ==> routes[..n][q] == routes[q];
  }

  // ----- rollups -----------------------------------------------------------------------------

  const TOTAL := "total"

  function ProtocolOf(entry: Entry): string {
    if entry.protocol.Some? && entry.protocol.value != "" then entry.protocol.value else "unknown"
  }

  function WithProtocol(rib: map<string, Entry>, protocol: string): set<string> {
    set key | key in rib && ProtocolOf(rib[key]) == protocol
  }

  ghost function Count(rib: map<string, Entry>, keys: set<string>, protocol: string): nat
    requires keys <= rib.Keys
  {
    |WithProtocol(rib, protocol) * keys| + if protocol == TOTAL then |rib| else 0
  }

  // Counts that count the entries under `keys`, and the whole rib beside them.
  ghost predicate CountsOf(counts: map<string, nat>, rib: map<string, Entry>, keys: set<string>)
    requires keys <= rib.Keys
  {
    && TOTAL in counts
    && (forall protocol :: protocol in counts <==> protocol == TOTAL || WithProtocol(rib, protocol) * keys != {})
    && (forall protocol :: protocol in counts ==> counts[protocol] == Count(rib, keys, protocol))
  }

  // `_normalize_route_rollups`
  method Rollups(rib: map<string, Entry>) returns (counts: map<string, nat>)
    ensures CountsOf(counts, rib, rib.Keys)
  {
    hide CountsOf, ProtocolOf;
    counts := map[TOTAL := |rib|];
    var rest := rib.Keys;
    CountsNothing(rib);
    assert rib.Keys - rest == {};
    while rest != {}
      invariant rest <= rib.Keys
      invariant CountsOf(counts, rib, rib.Keys - rest)
      decreases rest
    {
      var key :| key in rest;
      var protocol := ProtocolOf(rib[key]);
      CountedOneMore(counts, rib, rib.Keys - rest, key);
      counts := counts[protocol := (if protocol in counts then counts[protocol] else 0) + 1];
      assert rib.Keys - (rest - {key}) == rib.Keys - rest + {key};
      rest := rest - {key};
    }
    assert rib.Keys - {} == rib.Keys;
  }

  lemma CountsNothing(rib: map<string, Entry>)
    ensures CountsOf(map[TOTAL := |rib|], rib, {})
  {
    assert forall protocol :: WithProtocol(rib, protocol) * {} == {};
  }

  // One entry more, seen by one protocol.
  lemma CountOneMore(rib: map<string, Entry>, keys: set<string>, key: string, p: string)
    requires keys <= rib.Keys && key in rib && key !in keys
    ensures WithProtocol(rib, p) * (keys + {key})
         == WithProtocol(rib, p) * keys + if p == ProtocolOf(rib[key]) then {key} else {}
    ensures Count(rib, keys + {key}, p) == Count(rib, keys, p) + if p == ProtocolOf(rib[key]) then 1 else 0
  {
    hide ProtocolOf;
    var before, after := WithProtocol(rib, p) * keys, WithProtocol(rib, p) * (keys + {key});
    assert after == before + if p == ProtocolOf(rib[key]) then {key} else {};
  }

  lemma CountedOneMore(counts: map<string, nat>, rib: map<string, Entry>, keys: set<string>, key: string)
    requires keys <= rib.Keys && key in rib && key !in keys && CountsOf(counts, rib, keys)
    ensures var p := ProtocolOf(rib[key]);
      CountsOf(counts[p := (if p in counts then counts[p] else 0) + 1], rib, keys + {key})
  {
    hide ProtocolOf, WithProtocol, Count, CountsOf;
    var p := ProtocolOf(rib[key]);
    var after := counts[p := (if p in counts then counts[p] else 0) + 1];
    forall q
      ensures q in after <==> q == TOTAL || WithProtocol(rib, q) * (keys + {key}) != {}
      ensures q in after ==> after[q] == Count(rib, keys + {key}, q)
    {
      CountOneMore(rib, keys, key, q);
      CountsAt(counts, rib, keys, q);
    }
    CountsWhole(after, rib, keys + {key});
  }

  lemma CountsAt(counts: map<string, nat>, rib: map<string, Entry>, keys: set<string>, q: string)
    requires keys <= rib.Keys && CountsOf(counts, rib, keys)
    ensures TOTAL in counts && (q in counts <==> q == TOTAL || WithProtocol(rib, q) * keys != {})
    ensures q in counts ==> counts[q] == Count(rib, keys, q)
    ensures q !in counts ==> Count(rib, keys, q) == 0
  {
    hide WithProtocol;
  }

  lemma CountsWhole(counts: map<string, nat>, rib: map<string, Entry>, keys: set<string>)
    requires keys <= rib.Keys
    requires forall q :: q in counts <==> q == TOTAL || WithProtocol(rib, q) * keys != {}
    requires forall q :: q in counts ==> counts[q] == Count(rib, keys, q)
    ensures CountsOf(counts, rib, keys)
  {
    hide WithProtocol, Count;
  }

  ghost function Pick(s: set<string>): (x: string)
    requires s != {}
    ensures x in s
  {
    var x :| x in s; x
  }

  ghost function Sum(counts: map<string, nat>, names: set<string>): nat
    requires names <= counts.Keys
  {
    if names == {} then 0 else counts[Pick(names)] + Sum(counts, names - {Pick(names)})
  }

  lemma {:induction false} SumIsUnion(counts: map<string, nat>, rib: map<string, Entry>, names: set<string>)
    requires CountsOf(counts, rib, rib.Keys) && names <= counts.Keys - {TOTAL}
    ensures Sum(counts, names) == |set key | key in rib && ProtocolOf(rib[key]) in names|
    decreases names
  {
    if names != {} {
      var p := Pick(names);
      SumIsUnion(counts, rib, names - {p});
      var all := set key | key in rib && ProtocolOf(rib[key]) in names;
      var others := set key | key in rib && ProtocolOf(rib[key]) in names - {p};
      assert all == others + WithProtocol(rib, p);
      assert WithProtocol(rib, p) * rib.Keys == WithProtocol(rib, p);
    }
  }

  lemma NamedOrTotal(counts: map<string, nat>, rib: map<string, Entry>, key: string)
    requires CountsOf(counts, rib, rib.Keys) && key in rib
    ensures ProtocolOf(rib[key]) in counts
  {
    hide ProtocolOf;
    assert key in WithProtocol(rib, ProtocolOf(rib[key])) * rib.Keys;
  }

  // The counts per protocol add up to the total exactly when no protocol is called "total".
  lemma CountsAddUp(counts: map<string, nat>, rib: map<string, Entry>)
    requires CountsOf(counts, rib, rib.Keys)
    ensures Sum(counts, counts.Keys - {TOTAL}) + |WithProtocol(rib, TOTAL)| == |rib|
    ensures Sum(counts, counts.Keys - {TOTAL}) == counts[TOTAL]
       <==> forall key :: key in rib ==> ProtocolOf(rib[key]) != TOTAL
  {
    hide CountsOf, ProtocolOf, Sum;
    var names := counts.Keys - {TOTAL};
    SumIsUnion(counts, rib, names);
    TotalCounts(counts, rib);
    var others := set key | key in rib && ProtocolOf(rib[key]) in names;
    forall key | key in rib ensures key in others + WithProtocol(rib, TOTAL) {
      NamedOrTotal(counts, rib, key);
    }
    assert rib.Keys == others + WithProtocol(rib, TOTAL);
    assert |rib.Keys| == |rib|;
    if key :| key in rib && ProtocolOf(rib[key]) == TOTAL { assert key in WithProtocol(rib, TOTAL); }
  }

  lemma TotalCounts(counts: map<string, nat>, rib: map<string, Entry>)
    requires CountsOf(counts, rib, rib.Keys)
    ensures TOTAL in counts && counts[TOTAL] == |rib| + |WithProtocol(rib, TOTAL)|
  {
    hide ProtocolOf;
    assert WithProtocol(rib, TOTAL) * rib.Keys == WithProtocol(rib, TOTAL);
  }
}
