/** Which chassis each member of a switch stack is, told from three sources that may
    contradict each other. */
module StackIdentity {
  import opened Basics
  import opened Decimal
  import opened Lex

  // What an inventory prints of a chassis; a facet not printed is empty.
  datatype Facts = Facts(serial: string, model: string)

  // A chassis entry of `show inventory`: the switch number its name carries, and its facts.
  datatype Item = Item(number: nat, facts: Facts)

  datatype Inventory = NotConsulted | Failed | Rejected | Answered(items: seq<Item>)

  // `nodes`: each stack-node's serial by chassis number, None when absent or blank;
  // `chassis`: the chassis entries of the hardware inventory, in order.
  datatype Evidence = Evidence(nodes: map<string, Option<string>>, chassis: seq<Facts>, inventory: Inventory)

  datatype SerialSource = StackOper | ShowInventory | LoneChassis

  datatype ModelSource = DeviceInventory | InventoryPid

  datatype Identity = Identity(
    serial: Option<string>, serialSource: Option<SerialSource>, model: Option<string>, modelSource: Option<ModelSource>)

  const UNKNOWN := Identity(None, None, None, None)

  // ----- show inventory ---------------------------------------------------------------

  // `parse_show_inventory` over its entries: a number listed with two sets of facts maps
  // to None, and stays so.
  method ParseShowInventory(items: seq<Item>) returns (listed: map<string, Option<Facts>>)
    ensures listed == Listed(items)
  {
    listed := map[];
    for i := 0 to |items|
      invariant listed == Listed(items[..i])
    {
      assert items[..i + 1][..i] == items[..i];
      var number, facts := Digits(items[i].number), items[i].facts;
      var known := if number in listed then listed[number] else Some(facts);
      listed := listed[number := if known == Some(facts) then Some(facts) else None];
    }
    assert items[..|items|] == items;
  }

  function Listed(items: seq<Item>): map<string, Option<Facts>> {
    if items == [] then map[]
    else
      var last, rest := items[|items| - 1], Listed(items[..|items| - 1]);
      var number := Digits(last.number);
      var known := if number in rest then rest[number] else Some(last.facts);
      rest[number := if known == Some(last.facts) then Some(last.facts) else None]
  }

  ghost predicate Lists(items: seq<Item>, number: nat, facts: Facts) {
    exists i :: 0 <= i < |items| && items[i] == Item(number, facts)
  }

  // A number has facts exactly when every entry that lists it agrees on them.
  lemma {:induction false} ListedExactly(items: seq<Item>, number: nat, facts: Facts)
    ensures Digits(number) in Listed(items) <==> exists f :: Lists(items, number, f)
    ensures Digits(number) in Listed(items) && Listed(items)[Digits(number)] == Some(facts)
       <==> Lists(items, number, facts) && forall f :: Lists(items, number, f) ==> f == facts
  {
    if items != [] {
      var n := |items| - 1;
      ListedExactly(items[..n], number, facts);
      ListedExactly(items[..n], number, items[n].facts);
      if items[n].number != number {
        if Digits(items[n].number) == Digits(number) { DigitsInjective(items[n].number, number); }
      }
      forall f: Facts
        ensures Lists(items, number, f) <==> Lists(items[..n], number, f) || items[n] == Item(number, f)
      {
        if i :| 0 <= i < |items| && items[i] == Item(number, f) {
          if i < n { assert items[..n][i] == Item(number, f); }
        }
        if i :| 0 <= i < n && items[..n][i] == Item(number, f) { assert items[i] == Item(number, f); }
      }
    }
  }

  // ----- one member --------------------------------------------------------------------

  function MemberKey(number: string): string
    requires IsNumeral(number)
  {
    Digits(Value(number))
  }

  function Inventoried(ev: Evidence): map<string, Option<Facts>> {
    if ev.inventory.Answered? then Listed(ev.inventory.items) else map[]
  }

  // The member's own entry of `show inventory`, when it can serve.
  function EntryOf(key: string, ev: Evidence): Option<Facts> {
    if key in Inventoried(ev) then Inventoried(ev)[key] else None
  }

  // The stack-nodes that carry the serial, in whatever case.
  function Holders(nodes: map<string, Option<string>>, serial: string): set<string> {
    set key | key in nodes && nodes[key].Some? && Upper(nodes[key].value) == serial
  }

  predicate Repeated(nodes: map<string, Option<string>>, serial: string) {
    |Holders(nodes, serial)| > 1
  }

  // The first chassis entry that carries the serial.
  function ChassisOf(chassis: seq<Facts>, serial: string): Option<Facts> {
    if chassis == [] then None
    else if ChassisOf(chassis[..|chassis| - 1], serial).Some? then ChassisOf(chassis[..|chassis| - 1], serial)
    else
      var last := chassis[|chassis| - 1];
      if last.serial != "" && Upper(last.serial) == serial then Some(last) else None
  }

  function ChassisSerials(chassis: seq<Facts>): set<string> {
    set i | 0 <= i < |chassis| && chassis[i].serial != "" :: Upper(chassis[i].serial)
  }

  // One member beside one chassis, every entry of which carries its serial.
  function LoneSerial(members: nat, chassis: seq<Facts>): Option<string> {
    if members == 1 && |ChassisSerials(chassis)| == 1 && (forall i :: 0 <= i < |chassis| ==> chassis[i].serial != "")
    then Some(FirstSerial(chassis)) else None
  }

  function FirstSerial(chassis: seq<Facts>): string { if chassis == [] then "" else chassis[0].serial }

  function SerialOf(key: string, members: nat, ev: Evidence): Option<(string, SerialSource)> {
    var oper := if key in ev.nodes then ev.nodes[key] else None;
    if oper.Some? && !Repeated(ev.nodes, Upper(oper.value)) then Some((Upper(oper.value), StackOper))
    else if EntryOf(key, ev).Some? && EntryOf(key, ev).value.serial != "" then
      Some((Upper(EntryOf(key, ev).value.serial), ShowInventory))
    else if !ev.inventory.NotConsulted? && LoneSerial(members, ev.chassis).Some? then
      Some((Upper(LoneSerial(members, ev.chassis).value), LoneChassis))
    else None
  }

  function ModelOf(key: string, serial: string, ev: Evidence): Option<(string, ModelSource)> {
    var chassis, entry := ChassisOf(ev.chassis, serial), EntryOf(key, ev);
    if chassis.Some? && chassis.value.model != "" then Some((chassis.value.model, DeviceInventory))
    else if entry.Some? && entry.value.serial != "" && Upper(entry.value.serial) == serial
            && entry.value.model != "" then
      Some((entry.value.model, InventoryPid))
    else None
  }

  // The member by itself, before the others are looked at.
  function Tentative(number: string, members: nat, ev: Evidence): Identity
    requires IsNumeral(number)
  {
    match SerialOf(MemberKey(number), members, ev)
    case None => UNKNOWN
    case Some((serial, source)) =>
      match ModelOf(MemberKey(number), serial, ev)
      case None => Identity(Some(serial), Some(source), None, None)
      case Some((model, modelSource)) => Identity(Some(serial), Some(source), Some(model), Some(modelSource))
  }

  // ----- the resolution ------------------------------------------------------------------

  ghost predicate Roster(members: seq<string>) {
    (forall i :: 0 <= i < |members| ==> IsNumeral(members[i]))
    && forall i, j :: 0 <= i < j < |members| ==> members[i] != members[j]
  }

  // Another member came to the same serial.
  ghost predicate Contested(number: string, members: seq<string>, ev: Evidence)
    requires Roster(members) && number in members
  {
    && Tentative(number, |members|, ev).serial.Some?
    && exists other ::
         other in members && other != number
         && Tentative(other, |members|, ev).serial == Tentative(number, |members|, ev).serial
  }

  method ChassisBySerial(chassis: seq<Facts>) returns (bySerial: map<string, Facts>)
    ensures forall serial :: serial in bySerial <==> ChassisOf(chassis, serial).Some?
    ensures forall serial :: serial in bySerial ==> ChassisOf(chassis, serial) == Some(bySerial[serial])
    ensures bySerial.Keys == ChassisSerials(chassis)
  {
    bySerial := map[];
    for i := 0 to |chassis|
      invariant forall serial :: serial in bySerial <==> ChassisOf(chassis[..i], serial).Some?
      invariant forall serial :: serial in bySerial ==> ChassisOf(chassis[..i], serial) == Some(bySerial[serial])
      invariant bySerial.Keys == ChassisSerials(chassis[..i])
    {
      assert chassis[..i + 1][..i] == chassis[..i];
      ghost var before := ChassisSerials(chassis[..i]);
      assert ChassisSerials(chassis[..i + 1])
          == before + if chassis[i].serial != "" then {Upper(chassis[i].serial)} else {};
      if chassis[i].serial != "" && Upper(chassis[i].serial) !in bySerial {
        bySerial := bySerial[Upper(chassis[i].serial) := chassis[i]];
      }
    }
    assert chassis[..|chassis|] == chassis;
  }

  method HoldersOfSerials(nodes: map<string, Option<string>>) returns (holders: map<string, set<string>>)
    ensures forall serial :: serial in holders ==> holders[serial] == Holders(nodes, serial)
    ensures forall key :: key in nodes && nodes[key].Some? ==> Upper(nodes[key].value) in holders
  {
    holders := map[];
    var rest := nodes.Keys;
    while rest != {}
      invariant rest <= nodes.Keys
      invariant forall serial :: serial in holders ==> holders[serial] == Holders(nodes, serial) - rest
      invariant forall serial :: serial !in holders ==> Holders(nodes, serial) <= rest
      decreases rest
    {
      var key :| key in rest;
      rest := rest - {key};
      if nodes[key].Some? {
        var serial := Upper(nodes[key].value);
        holders := holders[serial := (if serial in holders then holders[serial] else {}) + {key}];
      }
    }
    forall key | key in nodes && nodes[key].Some? ensures Upper(nodes[key].value) in holders {
      assert key in Holders(nodes, Upper(nodes[key].value));
    }
  }

  method LoneSerialOf(members: nat, chassis: seq<Facts>, bySerial: map<string, Facts>) returns (lone: Option<string>)
    requires bySerial.Keys == ChassisSerials(chassis)
    requires forall serial :: serial in bySerial ==> ChassisOf(chassis, serial) == Some(bySerial[serial])
    ensures lone == LoneSerial(members, chassis)
  {
    lone := None;
    if members == 1 && |bySerial| == 1 && forall i :: 0 <= i < |chassis| ==> chassis[i].serial != "" {
      assert |bySerial.Keys| == 1;
      var serial :| serial in bySerial;
      Singleton(bySerial.Keys, serial);
      FirstIsFirst(chassis);
      assert Upper(chassis[0].serial) in ChassisSerials(chassis);
      lone := Some(bySerial[serial].serial);
    }
    assert |bySerial| == |bySerial.Keys|;
  }

  lemma Singleton<T>(s: set<T>, x: T)
    requires |s| == 1 && x in s
    ensures s == {x}
  {
    assert |s - {x}| == 0;
  }

  lemma {:induction false} FirstIsFirst(chassis: seq<Facts>)
    ensures chassis != [] && chassis[0].serial != "" ==>
      ChassisOf(chassis, Upper(chassis[0].serial)) == Some(chassis[0])
  {
    if |chassis| > 1 {
      FirstIsFirst(chassis[..|chassis| - 1]);
    } else if |chassis| == 1 {
      assert chassis[..0] == [];
    }
  }

  // Each member by itself.
  method IdentifyEach(members: seq<string>, ev: Evidence) returns (identity: map<string, Identity>)
    requires Roster(members)
    ensures identity.Keys == set m | m in members
    ensures forall m :: m in members ==> identity[m] == Tentative(m, |members|, ev)
  {
    hide Upper, Digits, Value, Listed, ChassisOf, LoneSerial, Holders;
    var bySerial := ChassisBySerial(ev.chassis);
    var listed: map<string, Option<Facts>> := map[];
    if ev.inventory.Answered? { listed := ParseShowInventory(ev.inventory.items); }
    var lone := LoneSerialOf(|members|, ev.chassis, bySerial);
    var holders := HoldersOfSerials(ev.nodes);
    identity := map[];
    for i := 0 to |members|
      invariant identity.Keys == set m | m in members[..i]
      invariant forall m :: m in members[..i] ==> IsNumeral(m) && identity[m] == Tentative(m, |members|, ev)
    {
      var key := MemberKey(members[i]);
      var facts := UNKNOWN;
      var entry := if key in listed then listed[key] else None;
      var serial := if key in ev.nodes then ev.nodes[key] else None;
      if serial.Some? && |holders[Upper(serial.value)]| <= 1 {
        facts := facts.(serial := serial, serialSource := Some(StackOper));
      }
      if facts.serial.None? {
        if entry.Some? && entry.value.serial != "" {
          facts := facts.(serial := Some(entry.value.serial), serialSource := Some(ShowInventory));
        } else if !ev.inventory.NotConsulted? && lone.Some? {
          facts := facts.(serial := lone, serialSource := Some(LoneChassis));
        }
      }
      if facts.serial.Some? {
        var upper := Upper(facts.serial.value);
        facts := facts.(serial := Some(upper));
        if upper in bySerial && bySerial[upper].model != "" {
          facts := facts.(model := Some(bySerial[upper].model), modelSource := Some(DeviceInventory));
        } else if entry.Some? && entry.value.serial != "" && Upper(entry.value.serial) == upper
                  && entry.value.model != "" {
          facts := facts.(model := Some(entry.value.model), modelSource := Some(InventoryPid));
        }
      }
      assert facts == Tentative(members[i], |members|, ev);
      identity := identity[members[i] := facts];
      assert members[..i + 1] == members[..i] + [members[i]];
    }
    assert members[..|members|] == members;
  }

  ghost predicate Carry(numbers: seq<string>, members: seq<string>, identity: map<string, Identity>, serial: string)
    requires forall m :: m in members ==> m in identity
  {
    && (forall m :: m in numbers <==> m in members && identity[m].serial == Some(serial))
    && forall i, j :: 0 <= i < j < |numbers| ==> numbers[i] != numbers[j]
  }

  // The members on each serial.
  method CarriersOf(members: seq<string>, identity: map<string, Identity>) returns (carriers: map<string, seq<string>>)
    requires Roster(members) && forall m :: m in members ==> m in identity
    ensures forall serial :: serial in carriers ==> Carry(carriers[serial], members, identity, serial)
    ensures forall m :: m in members && identity[m].serial.Some? ==> identity[m].serial.value in carriers
  {
    carriers := map[];
    for i := 0 to |members|
      invariant forall serial :: serial in carriers ==> Carry(carriers[serial], members[..i], identity, serial)
      invariant forall m :: m in members[..i] && identity[m].serial.Some? ==> identity[m].serial.value in carriers
    {
      var m := members[i];
      assert m !in members[..i];
      assert members[..i + 1] == members[..i] + [m];
      if identity[m].serial.Some? {
        var serial := identity[m].serial.value;
        carriers := carriers[serial := (if serial in carriers then carriers[serial] else []) + [m]];
      }
    }
    assert members[..|members|] == members;
  }

  ghost predicate Shared(m: string, members: seq<string>, identity: map<string, Identity>)
    requires m in members && forall other :: other in members ==> other in identity
  {
    && identity[m].serial.Some?
    && exists other :: other in members && other != m && identity[other].serial == identity[m].serial
  }

  lemma CarriedTwice(numbers: seq<string>, members: seq<string>, identity: map<string, Identity>, serial: string)
    requires forall m :: m in members ==> m in identity
    requires Carry(numbers, members, identity, serial)
    ensures forall m :: m in numbers <==> m in members && identity[m].serial == Some(serial)
    ensures forall m :: m in numbers ==> (Shared(m, members, identity) <==> |numbers| > 1)
  {
    forall m | m in numbers ensures Shared(m, members, identity) <==> |numbers| > 1 {
      if |numbers| > 1 {
        var other := if numbers[0] == m then numbers[1] else numbers[0];
        assert other in numbers;
      }
      if Shared(m, members, identity) {
        var other :| other in members && other != m && identity[other].serial == identity[m].serial;
        assert other in numbers;
      }
    }
  }

  method Forget(numbers: seq<string>, before: map<string, Identity>) returns (identity: map<string, Identity>)
    requires forall m :: m in numbers ==> m in before
    ensures identity.Keys == before.Keys
    ensures forall m :: m in before ==> identity[m] == if m in numbers then UNKNOWN else before[m]
  {
    identity := before;
    for i := 0 to |numbers|
      invariant identity.Keys == before.Keys
      invariant forall m :: m in before ==> identity[m] == if m in numbers[..i] then UNKNOWN else before[m]
    {
      assert numbers[..i + 1] == numbers[..i] + [numbers[i]];
      identity := identity[numbers[i] := UNKNOWN];
    }
    assert numbers[..|numbers|] == numbers;
  }

  // A serial still on two members identifies neither.
  method Withdraw(members: seq<string>, first: map<string, Identity>) returns (identity: map<string, Identity>)
    requires Roster(members) && first.Keys == set m | m in members
    ensures identity.Keys == first.Keys
    ensures forall m :: m in members ==>
      identity[m] == if Shared(m, members, first) then UNKNOWN else first[m]
  {
    hide Carry, Shared;
    var carriers := CarriersOf(members, first);
    identity := first;
    AllWithdrawn(members, first, carriers.Keys);
    var rest := carriers.Keys;
    while rest != {}
      invariant rest <= carriers.Keys && identity.Keys == first.Keys
      invariant forall m :: m in members ==>
        identity[m] == if Withdrawn(m, members, first, rest) then UNKNOWN else first[m]
      decreases rest
    {
      var serial :| serial in rest;
      CarriedTwice(carriers[serial], members, first, serial);
      WithdrawnNext(members, first, rest, serial);
      if |carriers[serial]| > 1 {
        identity := Forget(carriers[serial], identity);
      }
      rest := rest - {serial};
    }
  }

  // Withdrawn once the serials of `rest` are all that is left to look at.
  ghost predicate Withdrawn(m: string, members: seq<string>, identity: map<string, Identity>, rest: set<string>)
    requires m in members && forall other :: other in members ==> other in identity
  {
    Shared(m, members, identity) && identity[m].serial.value !in rest
  }

  lemma WithdrawnNext(members: seq<string>, identity: map<string, Identity>, rest: set<string>, serial: string)
    requires forall other :: other in members ==> other in identity
    ensures forall m :: m in members ==>
      (Withdrawn(m, members, identity, rest - {serial})
       <==> Withdrawn(m, members, identity, rest)
            || (Shared(m, members, identity) && identity[m].serial == Some(serial)))
  {
  }

  lemma AllWithdrawn(members: seq<string>, identity: map<string, Identity>, serials: set<string>)
    requires forall other :: other in members ==> other in identity
    requires forall m :: m in members && identity[m].serial.Some? ==> identity[m].serial.value in serials
    ensures forall m :: m in members ==> (Withdrawn(m, members, identity, {}) <==> Shared(m, members, identity))
    ensures forall m :: m in members ==> !Withdrawn(m, members, identity, serials)
  {
  }

  // What a member ends up with.
  ghost function Resolved(number: string, members: seq<string>, ev: Evidence): Identity
    requires Roster(members) && number in members
  {
    if Contested(number, members, ev) then UNKNOWN else Tentative(number, |members|, ev)
  }

  // `_member_identity`
  method MemberIdentity(members: seq<string>, ev: Evidence) returns (identity: map<string, Identity>)
    requires Roster(members)
    ensures identity.Keys == set m | m in members
    ensures forall m :: m in members ==> identity[m] == Resolved(m, members, ev)
    ensures forall m, other :: m in members && other in members && m != other && identity[m].serial.Some? ==>
              identity[m].serial != identity[other].serial
    ensures forall m :: m in members && identity[m].model.Some? ==> identity[m].serial.Some?
  {
    hide Tentative;
    var first := IdentifyEach(members, ev);
    identity := Withdraw(members, first);
    forall m | m in members && identity[m].model.Some? ensures identity[m].serial.Some? {
      IdentityIsSourced(members, ev, m);
    }
  }

  // ----- what an identity is worth --------------------------------------------------------

  // No two members end with the same serial.
  lemma SerialsAreDistinct(members: seq<string>, ev: Evidence, a: string, b: string)
    requires Roster(members) && a in members && b in members && a != b
    ensures Resolved(a, members, ev).serial.Some? ==> Resolved(a, members, ev).serial != Resolved(b, members, ev).serial
  {
    hide Tentative;
  }

  // A model comes with a serial, a source with its value, and a serial is upper-case.
  lemma IdentityIsSourced(members: seq<string>, ev: Evidence, m: string)
    requires Roster(members) && m in members
    ensures var id := Resolved(m, members, ev);
      && (id.model.Some? ==> id.serial.Some?)
      && id.serial.Some? == id.serialSource.Some? && id.model.Some? == id.modelSource.Some?
      && (id.serial.Some? ==> id.serial.value == Upper(id.serial.value))
  {
    hide Digits, Value;
    var key := MemberKey(m);
    if SerialOf(key, |members|, ev).Some? {
      var oper := if key in ev.nodes then ev.nodes[key] else None;
      if oper.Some? { UpperTwice(oper.value); }
      if EntryOf(key, ev).Some? { UpperTwice(EntryOf(key, ev).value.serial); }
      if LoneSerial(|members|, ev.chassis).Some? { UpperTwice(LoneSerial(|members|, ev.chassis).value); }
    }
  }

  // A serial two stack-nodes carry names no member through stack-oper.
  lemma RepeatedNamesNone(members: seq<string>, ev: Evidence, m: string, x: string, y: string)
    requires Roster(members) && m in members
    requires x in ev.nodes && y in ev.nodes && x != y && ev.nodes[x].Some? && ev.nodes[y].Some?
    requires Upper(ev.nodes[x].value) == Upper(ev.nodes[y].value)
    ensures var id := Resolved(m, members, ev);
      id.serialSource == Some(StackOper) ==> id.serial != Some(Upper(ev.nodes[x].value))
  {
    hide Digits, Value;
    var serial := Upper(ev.nodes[x].value);
    var holders := Holders(ev.nodes, serial);
    assert x in holders && y in holders;
    assert |holders - {x} - {y}| == |holders| - 2;
  }

  // Stack-oper names a member exactly when its node has a serial no other node has, and no
  // other member came to that serial.
  lemma StackOperNamesExactly(members: seq<string>, ev: Evidence, m: string)
    requires Roster(members) && m in members
    ensures var key := MemberKey(m);
      Resolved(m, members, ev).serialSource == Some(StackOper)
      <==> key in ev.nodes && ev.nodes[key].Some? && !Contested(m, members, ev)
           && forall other :: other in ev.nodes && other != key && ev.nodes[other].Some? ==>
                Upper(ev.nodes[other].value) != Upper(ev.nodes[key].value)
  {
    hide Digits, Value;
    var key := MemberKey(m);
    if key in ev.nodes && ev.nodes[key].Some? {
      var serial := Upper(ev.nodes[key].value);
      var holders := Holders(ev.nodes, serial);
      assert key in holders;
      if |holders| > 1 {
        assert |holders - {key}| > 0;
        var other :| other in holders - {key};
        assert Upper(ev.nodes[other].value) == serial;
      } else {
        Singleton(holders, key);
        forall other | other in ev.nodes && other != key && ev.nodes[other].Some?
          ensures Upper(ev.nodes[other].value) != serial
        {
          assert other !in holders;
        }
      }
    }
  }

  // The last resort takes one chassis for one member, and only when no entry is unnamed.
  lemma LoneChassisMeans(members: seq<string>, ev: Evidence, m: string)
    requires Roster(members) && m in members
    requires Resolved(m, members, ev).serialSource == Some(LoneChassis)
    ensures members == [m] && ev.chassis != [] && !ev.inventory.NotConsulted?
    ensures forall i :: 0 <= i < |ev.chassis| ==>
      ev.chassis[i].serial != "" && Some(Upper(ev.chassis[i].serial)) == Resolved(m, members, ev).serial
  {
    hide Digits, Value;
    var serials := ChassisSerials(ev.chassis);
    var serial :| serial in serials;
    Singleton(serials, serial);
    forall i | 0 <= i < |ev.chassis| ensures Upper(ev.chassis[i].serial) == serial {
      assert Upper(ev.chassis[i].serial) in serials;
    }
  }

  // A part number of the hardware inventory is the one its serial's first entry carries.
  lemma {:induction false} ChassisOfMeans(chassis: seq<Facts>, serial: string)
    ensures match ChassisOf(chassis, serial)
      case None => forall i :: 0 <= i < |chassis| ==> chassis[i].serial == "" || Upper(chassis[i].serial) != serial
      case Some(facts) =>
        exists i :: 0 <= i < |chassis| && chassis[i] == facts && facts.serial != "" && Upper(facts.serial) == serial
          && forall j :: 0 <= j < i ==> chassis[j].serial == "" || Upper(chassis[j].serial) != serial
  {
    if chassis != [] {
      var n := |chassis| - 1;
      ChassisOfMeans(chassis[..n], serial);
      if ChassisOf(chassis[..n], serial).Some? {
        var i :| 0 <= i < n && chassis[..n][i] == ChassisOf(chassis[..n], serial).value
          && Upper(chassis[..n][i].serial) == serial && chassis[..n][i].serial != ""
          && forall j :: 0 <= j < i ==> chassis[..n][j].serial == "" || Upper(chassis[..n][j].serial) != serial;
        assert chassis[i] == ChassisOf(chassis, serial).value;
        forall j | 0 <= j < i ensures chassis[j].serial == "" || Upper(chassis[j].serial) != serial {
          assert chassis[..n][j] == chassis[j];
        }
      } else {
        forall j | 0 <= j < n ensures chassis[j].serial == "" || Upper(chassis[j].serial) != serial {
          assert chassis[..n][j] == chassis[j];
        }
      }
    }
  }

  // ----- spelling does not matter -------------------------------------------------------------

  predicate AlikeFacts(x: Facts, y: Facts) { Upper(x.serial) == Upper(y.serial) && x.model == y.model }

  ghost predicate AlikeListed(x: map<string, Option<Facts>>, y: map<string, Option<Facts>>) {
    x.Keys == y.Keys
    && forall key :: key in x ==>
         x[key].Some? == y[key].Some? && (x[key].Some? ==> AlikeFacts(x[key].value, y[key].value))
  }

  // Evidence that comes to the same but for the case of serials, `show inventory` as parsed.
  ghost predicate AlikeParsed(a: Evidence, b: Evidence) {
    && AlikeNodeSerials(a.nodes, b.nodes)
    && |a.chassis| == |b.chassis|
    && (forall i :: 0 <= i < |a.chassis| ==> AlikeFacts(a.chassis[i], b.chassis[i]))
    && a.inventory.NotConsulted? == b.inventory.NotConsulted?
    && AlikeListed(Inventoried(a), Inventoried(b))
  }

  ghost predicate AlikeNodeSerials(a: map<string, Option<string>>, b: map<string, Option<string>>) {
    && a.Keys == b.Keys
    && forall key :: key in a ==>
         a[key].Some? == b[key].Some? && (a[key].Some? ==> Upper(a[key].value) == Upper(b[key].value))
  }

  // The same evidence, but for the case serials are spelled in, entry by entry.
  ghost predicate AlikeEvidence(a: Evidence, b: Evidence) {
    && AlikeNodeSerials(a.nodes, b.nodes)
    && |a.chassis| == |b.chassis|
    && (forall i :: 0 <= i < |a.chassis| ==> AlikeFacts(a.chassis[i], b.chassis[i]))
    && AlikeInventory(a.inventory, b.inventory)
  }

  ghost predicate AlikeInventory(a: Inventory, b: Inventory) {
    if a.Answered? && b.Answered? then AlikeItems(a.items, b.items) else a == b
  }

  ghost predicate AlikeItems(x: seq<Item>, y: seq<Item>) {
    |x| == |y|
    && forall i :: 0 <= i < |x| ==> x[i].number == y[i].number && AlikeFacts(x[i].facts, y[i].facts)
  }

  // The entries that list the number agree on its facts, to the letter.
  ghost predicate Agree(items: seq<Item>, number: nat) {
    forall i, j :: 0 <= i < |items| && 0 <= j < |items| && items[i].number == items[j].number == number ==>
      items[i].facts == items[j].facts
  }

  // No number is listed in agreement by the one and in disagreement by the other.
  ghost predicate AgreeAlike(x: seq<Item>, y: seq<Item>) {
    forall i :: 0 <= i < |x| ==> (Agree(x, x[i].number) <==> Agree(y, x[i].number))
  }

  ghost predicate AgreeOnNumbers(a: Inventory, b: Inventory) {
    a.Answered? && b.Answered? ==> AgreeAlike(a.items, b.items)
  }

  lemma {:induction false} AlikeChassis(a: seq<Facts>, b: seq<Facts>, serial: string)
    requires |a| == |b| && forall i :: 0 <= i < |a| ==> AlikeFacts(a[i], b[i])
    ensures ChassisOf(a, serial).Some? == ChassisOf(b, serial).Some?
    ensures ChassisOf(a, serial).Some? ==> AlikeFacts(ChassisOf(a, serial).value, ChassisOf(b, serial).value)
  {
    if a != [] {
      AlikeChassis(a[..|a| - 1], b[..|b| - 1], serial);
      var x, y := a[|a| - 1], b[|b| - 1];
      assert |Upper(x.serial)| == |x.serial| && |Upper(y.serial)| == |y.serial|;
    }
  }

  lemma AlikeLone(a: seq<Facts>, b: seq<Facts>, members: nat)
    requires |a| == |b| && forall i :: 0 <= i < |a| ==> AlikeFacts(a[i], b[i])
    ensures LoneSerial(members, a).Some? == LoneSerial(members, b).Some?
    ensures LoneSerial(members, a).Some? ==> Upper(LoneSerial(members, a).value) == Upper(LoneSerial(members, b).value)
  {
    forall i | 0 <= i < |a| ensures a[i].serial == "" <==> b[i].serial == "" {
      assert |Upper(a[i].serial)| == |a[i].serial| && |Upper(b[i].serial)| == |b[i].serial|;
    }
    forall serial ensures serial in ChassisSerials(a) <==> serial in ChassisSerials(b) {
      if serial in ChassisSerials(a) {
        var i :| 0 <= i < |a| && a[i].serial != "" && Upper(a[i].serial) == serial;
        assert Upper(b[i].serial) == serial;
      }
      if serial in ChassisSerials(b) {
        var i :| 0 <= i < |b| && b[i].serial != "" && Upper(b[i].serial) == serial;
        assert Upper(a[i].serial) == serial;
      }
    }
    assert ChassisSerials(a) == ChassisSerials(b);
  }

  // What a listed number maps to.
  lemma ListedAt(items: seq<Item>, i: nat)
    requires i < |items|
    ensures var key := Digits(items[i].number);
      key in Listed(items)
      && Listed(items)[key] == if Agree(items, items[i].number) then Some(items[i].facts) else None
  {
    hide Listed, Digits;
    var number, facts := items[i].number, items[i].facts;
    ListedExactly(items, number, facts);
    assert Lists(items, number, facts);
    if Agree(items, number) {
      forall f | Lists(items, number, f) ensures f == facts {
        var j :| 0 <= j < |items| && items[j] == Item(number, f);
      }
    } else if Listed(items)[Digits(number)].Some? {
      var known := Listed(items)[Digits(number)].value;
      ListedExactly(items, number, known);
      forall j | 0 <= j < |items| && items[j].number == number ensures items[j].facts == known {
        assert Lists(items, number, items[j].facts);
      }
      assert false;
    }
  }

  lemma {:induction false} ListedKeys(items: seq<Item>, key: string)
    requires key in Listed(items)
    ensures exists i :: 0 <= i < |items| && key == Digits(items[i].number)
  {
    hide Digits;
    var n := |items| - 1;
    if key != Digits(items[n].number) {
      ListedKeys(items[..n], key);
      var i :| 0 <= i < n && key == Digits(items[..n][i].number);
      assert key == Digits(items[i].number);
    }
  }

  // Inventories that differ in case only parse alike when they agree on the same numbers.
  lemma AlikeListings(x: seq<Item>, y: seq<Item>)
    requires AlikeItems(x, y) && AgreeAlike(x, y)
    ensures AlikeListed(Listed(x), Listed(y))
  {
    hide Listed, Digits, Agree;
    forall key ensures key in Listed(x) <==> key in Listed(y) {
      if key in Listed(x) {
        ListedKeys(x, key);
        var i :| 0 <= i < |x| && key == Digits(x[i].number);
        ListedAt(y, i);
      }
      if key in Listed(y) {
        ListedKeys(y, key);
        var i :| 0 <= i < |y| && key == Digits(y[i].number);
        ListedAt(x, i);
      }
    }
    forall key | key in Listed(x)
      ensures Listed(x)[key].Some? == Listed(y)[key].Some?
      ensures Listed(x)[key].Some? ==> AlikeFacts(Listed(x)[key].value, Listed(y)[key].value)
    {
      ListedKeys(x, key);
      var i :| 0 <= i < |x| && key == Digits(x[i].number);
      ListedAt(x, i);
      ListedAt(y, i);
    }
  }

  lemma AlikeParses(a: Evidence, b: Evidence)
    requires AlikeEvidence(a, b) && AgreeOnNumbers(a.inventory, b.inventory)
    ensures AlikeParsed(a, b)
  {
    hide Listed, AlikeItems, AgreeAlike;
    if a.inventory.Answered? && b.inventory.Answered? { AlikeListings(a.inventory.items, b.inventory.items); }
  }

  // A change of case, in any of the sources, changes no member's identity, as long as it
  // makes no entries of `show inventory` for one number agree, or disagree.
  lemma SpellingDoesNotMatter(members: seq<string>, a: Evidence, b: Evidence, m: string)
    requires Roster(members) && m in members && AlikeEvidence(a, b) && AgreeOnNumbers(a.inventory, b.inventory)
    ensures Resolved(m, members, a) == Resolved(m, members, b)
  {
    hide Tentative, AlikeParsed, AlikeEvidence;
    AlikeParses(a, b);
    forall number | number in members
      ensures Tentative(number, |members|, a) == Tentative(number, |members|, b)
    {
      AlikeTentative(number, |members|, a, b);
    }
  }

  lemma AlikeTentative(number: string, members: nat, a: Evidence, b: Evidence)
    requires IsNumeral(number) && AlikeParsed(a, b)
    ensures Tentative(number, members, a) == Tentative(number, members, b)
  {
    hide Digits, Value, Upper, ChassisOf, SerialOf, Inventoried, Repeated;
    AlikeSerial(MemberKey(number), members, a, b);
    var serial := SerialOf(MemberKey(number), members, a);
    if serial.Some? {
      AlikeChassis(a.chassis, b.chassis, serial.value.0);
      AlikeEntry(MemberKey(number), a, b);
    }
  }

  lemma AlikeEntry(key: string, a: Evidence, b: Evidence)
    requires AlikeParsed(a, b)
    ensures EntryOf(key, a).Some? == EntryOf(key, b).Some?
    ensures EntryOf(key, a).Some? ==>
      AlikeFacts(EntryOf(key, a).value, EntryOf(key, b).value)
      && (EntryOf(key, a).value.serial == "" <==> EntryOf(key, b).value.serial == "")
  {
    hide Inventoried;
    if EntryOf(key, a).Some? {
      var x, y := EntryOf(key, a).value, EntryOf(key, b).value;
      assert |Upper(x.serial)| == |x.serial| && |Upper(y.serial)| == |y.serial|;
    }
  }

  lemma AlikeSerial(key: string, members: nat, a: Evidence, b: Evidence)
    requires AlikeParsed(a, b)
    ensures SerialOf(key, members, a) == SerialOf(key, members, b)
  {
    hide Upper, LoneSerial, Inventoried, Repeated, EntryOf;
    AlikeLone(a.chassis, b.chassis, members);
    AlikeEntry(key, a, b);
    if key in a.nodes && a.nodes[key].Some? { AlikeNodes(a, b, Upper(a.nodes[key].value)); }
  }

  lemma AlikeNodes(a: Evidence, b: Evidence, serial: string)
    requires AlikeParsed(a, b)
    ensures Repeated(a.nodes, serial) == Repeated(b.nodes, serial)
  {
    assert Holders(a.nodes, serial) == Holders(b.nodes, serial);
  }

  // ----- and where it does -----------------------------------------------------------------------

  // The two inventories give the member one identity, beside these nodes and chassis.
  ghost predicate SameIdentity(x: seq<Item>, y: seq<Item>, nodes: map<string, Option<string>>, chassis: seq<Facts>,
                               members: seq<string>, m: string)
    requires Roster(members) && m in members
  {
    Resolved(m, members, Evidence(nodes, chassis, Answered(x)))
    == Resolved(m, members, Evidence(nodes, chassis, Answered(y)))
  }

  ghost predicate SameIdentities(x: seq<Item>, y: seq<Item>) {
    forall nodes, chassis, members, m | Roster(members) && m in members ::
      SameIdentity(x, y, nodes, chassis, members, m)
  }

  // A member known by `show inventory` alone.
  lemma OnlyInventoried(items: seq<Item>, i: nat)
    requires i < |items|
    ensures var number := Digits(items[i].number);
      Roster([number]) && number in [number]
      && Resolved(number, [number], Evidence(map[], [], Answered(items))).serial
         == if Agree(items, items[i].number) && items[i].facts.serial != "" then Some(Upper(items[i].facts.serial))
            else None
  {
    hide Listed, Digits, Agree, Value;
    ListedAt(items, i);
    ValueOfDigits(items[i].number);
    var ev := Evidence(map[], [], Answered(items));
    var key := Digits(items[i].number);
    assert ChassisSerials(ev.chassis) == {};
    assert SerialOf(key, 1, ev)
      == if Agree(items, items[i].number) && items[i].facts.serial != ""
         then Some((Upper(items[i].facts.serial), ShowInventory))
         else None;
    assert MemberKey(key) == key;
  }

  // Entries that agree in one spelling and not in the other carry a serial.
  lemma SpelledApart(x: seq<Item>, y: seq<Item>, i: nat)
    requires AlikeItems(x, y) && i < |x| && Agree(x, x[i].number) && !Agree(y, x[i].number)
    ensures x[i].facts.serial != ""
  {
    var number := x[i].number;
    var j, k :| 0 <= j < |y| && 0 <= k < |y| && y[j].number == y[k].number == number && y[j].facts != y[k].facts;
    assert x[j].facts == x[i].facts == x[k].facts;
    assert |Upper(x[i].facts.serial)| == |x[i].facts.serial|;
    assert |Upper(y[j].facts.serial)| == |y[j].facts.serial| && |Upper(y[k].facts.serial)| == |y[k].facts.serial|;
  }

  lemma SpelledApartShows(x: seq<Item>, y: seq<Item>, i: nat)
    requires AlikeItems(x, y) && i < |x| && Agree(x, x[i].number) && !Agree(y, x[i].number)
    ensures var m := Digits(x[i].number);
      Roster([m]) && m in [m] && !SameIdentity(x, y, map[], [], [m], m)
  {
    hide Agree, Resolved, Digits;
    OnlyInventoried(x, i);
    OnlyInventoried(y, i);
    SpelledApart(x, y, i);
  }

  // Two inventories that differ in case only give every member the same identity, whatever
  // the other sources say, exactly when they agree on the same numbers.
  lemma SpellingMattersExactly(x: seq<Item>, y: seq<Item>)
    requires AlikeItems(x, y)
    ensures SameIdentities(x, y) <==> AgreeAlike(x, y)
  {
    hide Agree, Resolved;
    if AgreeAlike(x, y) {
      forall nodes, chassis, members, m | Roster(members) && m in members
        ensures SameIdentity(x, y, nodes, chassis, members, m)
      {
        SpellingDoesNotMatter(members, Evidence(nodes, chassis, Answered(x)), Evidence(nodes, chassis, Answered(y)), m);
      }
    } else {
      var i :| 0 <= i < |x| && Agree(x, x[i].number) != Agree(y, x[i].number);
      if Agree(x, x[i].number) {
        SpelledApartShows(x, y, i);
      } else {
        assert AlikeItems(y, x);
        SpelledApartShows(y, x, i);
        assert !SameIdentity(x, y, map[], [], [Digits(x[i].number)], Digits(x[i].number));
      }
    }
  }

  // One entry printed twice names its switch; the serial of the second in another case, and
  // the two entries name none.
  lemma SpellingShows()
    ensures var once := [Item(1, Facts("ab", "m")), Item(1, Facts("ab", "m"))];
      var apart := [Item(1, Facts("ab", "m")), Item(1, Facts("AB", "m"))];
      && AlikeItems(once, apart)
      && Resolved("1", ["1"], Evidence(map[], [], Answered(once))).serial == Some("AB")
      && Resolved("1", ["1"], Evidence(map[], [], Answered(apart))).serial == None
  {
    hide Resolved;
    var once := [Item(1, Facts("ab", "m")), Item(1, Facts("ab", "m"))];
    var apart := [Item(1, Facts("ab", "m")), Item(1, Facts("AB", "m"))];
    assert Upper("ab") == "AB" && Upper("AB") == "AB";
    assert Digits(1) == "1";
    assert apart[0].facts != apart[1].facts && !Agree(apart, 1);
    OnlyInventoried(once, 0);
    OnlyInventoried(apart, 0);
  }
}
