/** How device groups are packed into parts that each fit the size cap. */
module Packing {
  import opened Basics
  import opened Manifest
  import opened ZipLayout

  // A staged artifact: its zip entry, the bytes spooled for it, its metadata object.
  datatype Member = Member(info: ZipInfo, data: seq<byte>, metadata: Metadata)

  type Group = seq<Member>

  function MemberInfos(members: seq<Member>): (r: seq<ZipInfo>)
    ensures |r| == |members|
  {
    seq(|members|, i requires 0 <= i < |members| => members[i].info)
  }

  lemma MemberInfosAppend(a: seq<Member>, b: seq<Member>)
    ensures MemberInfos(a + b) == MemberInfos(a) + MemberInfos(b)
  {
  }

  // The parts opened so far, and the entries of the one being filled.
  datatype Filling = Filling(parts: seq<seq<Member>>, infos: seq<ZipInfo>)

  function Fill(groups: seq<Group>, first: seq<ZipInfo>, maxBytes: nat): (r: Filling)
    ensures |r.parts| > 0
  {
    if groups == [] then Filling([[]], first)
    else AddGroup(Fill(groups[..|groups| - 1], first, maxBytes), groups[|groups| - 1], maxBytes)
  }

  function AddGroup(f: Filling, group: Group, maxBytes: nat): (r: Filling)
    requires |f.parts| > 0
    ensures |r.parts| > 0
  {
    var additions := MemberInfos(group);
    if Size(f.infos + additions) > maxBytes then Filling(f.parts + [group], additions)
    else
      var last := |f.parts| - 1;
      Filling(f.parts[..last] + [f.parts[last] + group], f.infos + additions)
  }

  // `_parts`: `first` is the manifest's entry, or nothing.
  function Pack(groups: seq<Group>, first: seq<ZipInfo>, maxBytes: nat): (r: seq<seq<Member>>)
    ensures |r| > 0
  {
    Fill(groups, first, maxBytes).parts
  }

  method Parts(groups: seq<Group>, manifestInfo: Option<ZipInfo>, maxBytes: nat) returns (parts: seq<seq<Member>>)
    ensures parts == Pack(groups, Reserved(manifestInfo), maxBytes)
  {
    hide Size, Fill, MemberInfos;
    parts := [[]];
    FillNothing(Reserved(manifestInfo), maxBytes);
    assert groups[..0] == [];
    var infos: seq<ZipInfo> := Reserved(manifestInfo);
    for k := 0 to |groups|
      invariant |parts| > 0
      invariant Fill(groups[..k], Reserved(manifestInfo), maxBytes) == Filling(parts, infos)
    {
      FillOneMore(groups, k, Reserved(manifestInfo), maxBytes);
      var additions := MemberInfos(groups[k]);
      var size := ArchiveSize(infos + additions);
      if size > maxBytes {
        parts := parts + [[]];
        infos := [];
      }
      parts := parts[..|parts| - 1] + [parts[|parts| - 1] + groups[k]];
      infos := infos + additions;
    }
    assert groups[..|groups|] == groups;
  }

  lemma FillNothing(first: seq<ZipInfo>, maxBytes: nat)
    ensures Fill([], first, maxBytes) == Filling([[]], first)
  {
  }

  // One group more: into the last part, or into a part opened for it.
  lemma FillOneMore(groups: seq<Group>, k: nat, first: seq<ZipInfo>, maxBytes: nat)
    requires k < |groups|
    ensures var (f, g) := (Fill(groups[..k], first, maxBytes), Fill(groups[..k + 1], first, maxBytes));
            var additions := MemberInfos(groups[k]);
            var open := Size(f.infos + additions) > maxBytes;
            var parts, infos := if open then f.parts + [[]] else f.parts, if open then [] else f.infos;
            g == Filling(parts[..|parts| - 1] + [parts[|parts| - 1] + groups[k]], infos + additions)
  {
    hide Size, AddGroup, MemberInfos;
    assert groups[..k + 1][..k] == groups[..k] && groups[..k + 1][k] == groups[k];
    AddGroupInto(Fill(groups[..k], first, maxBytes), groups[k], maxBytes);
  }

  lemma AddGroupInto(f: Filling, group: Group, maxBytes: nat)
    requires |f.parts| > 0
    ensures var additions := MemberInfos(group);
            var open := Size(f.infos + additions) > maxBytes;
            var parts, infos := if open then f.parts + [[]] else f.parts, if open then [] else f.infos;
            AddGroup(f, group, maxBytes)
            == Filling(parts[..|parts| - 1] + [parts[|parts| - 1] + group], infos + additions)
  {
    hide Size, MemberInfos;
    assert [] + group == group && [] + MemberInfos(group) == MemberInfos(group);
    assert (f.parts + [[]])[..|f.parts|] == f.parts;
  }

  function Reserved(info: Option<ZipInfo>): seq<ZipInfo> {
    if info.Some? then [info.value] else []
  }

  // What part i holds besides its members: the manifest's reservation, in part 1.
  function Lead(first: seq<ZipInfo>, i: nat): seq<ZipInfo> { if i == 0 then first else [] }

  // ----- nothing lost, nothing split ----------------------------------------------

  // The groups, divided into one run for each part.
  ghost predicate Divides(runs: seq<seq<Group>>, groups: seq<Group>, parts: seq<seq<Member>>) {
    && |runs| == |parts| && Flatten(runs) == groups
    && forall i :: 0 <= i < |parts| ==> parts[i] == Flatten(runs[i])
  }

  ghost function Runs(groups: seq<Group>, first: seq<ZipInfo>, maxBytes: nat): (runs: seq<seq<Group>>)
    ensures |runs| == |Pack(groups, first, maxBytes)|
  {
    if groups == [] then [[]]
    else
      var n := |groups| - 1;
      var f := Fill(groups[..n], first, maxBytes);
      var runs := Runs(groups[..n], first, maxBytes);
      if Size(f.infos + MemberInfos(groups[n])) > maxBytes then runs + [[groups[n]]]
      else runs[..|runs| - 1] + [runs[|runs| - 1] + [groups[n]]]
  }

  lemma OpenedPartDivides(runs: seq<seq<Group>>, groups: seq<Group>, parts: seq<seq<Member>>, group: Group)
    requires Divides(runs, groups, parts)
    ensures Divides(runs + [[group]], groups + [group], parts + [group])
  {
    FlattenSnoc(runs, [group]);
    FlattenSnoc([], group);
    assert [group] == [] + [group];
  }

  lemma ExtendedPartDivides(runs: seq<seq<Group>>, groups: seq<Group>, parts: seq<seq<Member>>, group: Group)
    requires Divides(runs, groups, parts) && |parts| > 0
    ensures var m := |parts| - 1;
            Divides(runs[..m] + [runs[m] + [group]], groups + [group], parts[..m] + [parts[m] + group])
  {
    var m := |parts| - 1;
    FlattenSnoc(runs[..m], runs[m]);
    FlattenSnoc(runs[..m], runs[m] + [group]);
    FlattenSnoc(runs[m], group);
    assert runs == runs[..m] + [runs[m]];
  }

  // Every part is a run of consecutive whole groups, in order, and no group is left over.
  lemma {:induction false} PackDivides(groups: seq<Group>, first: seq<ZipInfo>, maxBytes: nat)
    ensures Divides(Runs(groups, first, maxBytes), groups, Pack(groups, first, maxBytes))
  {
    hide Divides, Flatten;
    if groups == [] {
      EmptyDivides();
    } else {
      var n := |groups| - 1;
      var runs, parts := Runs(groups[..n], first, maxBytes), Pack(groups[..n], first, maxBytes);
      PackDivides(groups[..n], first, maxBytes);
      assert groups == groups[..n] + [groups[n]];
      OpenedPartDivides(runs, groups[..n], parts, groups[n]);
      ExtendedPartDivides(runs, groups[..n], parts, groups[n]);
    }
  }

  lemma EmptyDivides()
    ensures Divides([[]], [], [[]])
  {
    assert Flatten([[]]) == [] + Flatten<Group>([]);
  }

  // The parts laid end to end are the groups laid end to end.
  lemma PackIsLossless(groups: seq<Group>, first: seq<ZipInfo>, maxBytes: nat)
    ensures Flatten(Pack(groups, first, maxBytes)) == Flatten(groups)
  {
    PackDivides(groups, first, maxBytes);
    DividedIsLossless(Runs(groups, first, maxBytes), groups, Pack(groups, first, maxBytes));
  }

  lemma {:induction false} DividedIsLossless(runs: seq<seq<Group>>, groups: seq<Group>, parts: seq<seq<Member>>)
    requires Divides(runs, groups, parts)
    ensures Flatten(parts) == Flatten(groups)
  {
    if runs != [] {
      DividedIsLossless(runs[1..], Flatten(runs[1..]), parts[1..]);
      FlattenConcat(runs[0], Flatten(runs[1..]));
    }
  }

  // ----- every part fits ----------------------------------------------------------

  // Every part with anything in it fits; an empty part is never built.
  ghost predicate Fits(parts: seq<seq<Member>>, first: seq<ZipInfo>, maxBytes: nat) {
    forall i :: 0 <= i < |parts| ==> WithinCap(Lead(first, i) + MemberInfos(parts[i]), maxBytes)
  }

  predicate WithinCap(infos: seq<ZipInfo>, maxBytes: nat) { infos == [] || Size(infos) <= maxBytes }

  lemma {:induction false} FillingInfos(groups: seq<Group>, first: seq<ZipInfo>, maxBytes: nat)
    ensures var f := Fill(groups, first, maxBytes);
            f.infos == Lead(first, |f.parts| - 1) + MemberInfos(f.parts[|f.parts| - 1])
  {
    hide Size, AddGroup, MemberInfos;
    if groups == [] {
      NoInfos();
      assert first == first + [];
    } else {
      var n := |groups| - 1;
      FillingInfos(groups[..n], first, maxBytes);
      AddGroupInfos(Fill(groups[..n], first, maxBytes), first, groups[n], maxBytes);
    }
  }

  lemma NoInfos()
    ensures MemberInfos([]) == []
  {
  }

  lemma AddGroupInfos(f: Filling, first: seq<ZipInfo>, group: Group, maxBytes: nat)
    requires |f.parts| > 0 && f.infos == Lead(first, |f.parts| - 1) + MemberInfos(f.parts[|f.parts| - 1])
    ensures var g := AddGroup(f, group, maxBytes);
            g.infos == Lead(first, |g.parts| - 1) + MemberInfos(g.parts[|g.parts| - 1])
  {
    hide Size, MemberInfos;
    var last := |f.parts| - 1;
    var lead := Lead(first, last);
    MemberInfosAppend(f.parts[last], group);
    assert (lead + MemberInfos(f.parts[last])) + MemberInfos(group)
        == lead + (MemberInfos(f.parts[last]) + MemberInfos(group));
    assert [] + MemberInfos(group) == MemberInfos(group);
  }

  lemma AddGroupFits(f: Filling, first: seq<ZipInfo>, group: Group, maxBytes: nat)
    requires |f.parts| > 0 && Fits(f.parts, first, maxBytes)
    requires f.infos == Lead(first, |f.parts| - 1) + MemberInfos(f.parts[|f.parts| - 1])
    requires Size(MemberInfos(group)) <= maxBytes
    ensures Fits(AddGroup(f, group, maxBytes).parts, first, maxBytes)
  {
    hide Size, MemberInfos;
    var m := |f.parts| - 1;
    var r := AddGroup(f, group, maxBytes).parts;
    MemberInfosAppend(f.parts[m], group);
    forall i | 0 <= i < |r|
      ensures WithinCap(Lead(first, i) + MemberInfos(r[i]), maxBytes)
    {
      if i < m {
        assert r[i] == f.parts[i];
      } else if i == m + 1 {
        assert [] + MemberInfos(group) == MemberInfos(group);
      } else if r[m] != f.parts[m] {
        assert Lead(first, m) + MemberInfos(r[m]) == f.infos + MemberInfos(group);
      }
    }
  }

  // A part never passes the cap, its reservation counted, if no single group does.
  lemma {:induction false} PackFits(groups: seq<Group>, first: seq<ZipInfo>, maxBytes: nat)
    requires WithinCap(first, maxBytes)
    requires forall g :: g in groups ==> Size(MemberInfos(g)) <= maxBytes
    ensures Fits(Pack(groups, first, maxBytes), first, maxBytes)
  {
    hide Size;
    if groups == [] {
      assert first + MemberInfos([]) == first;
    } else {
      var n := |groups| - 1;
      PackFits(groups[..n], first, maxBytes);
      FillingInfos(groups[..n], first, maxBytes);
      assert groups[n] in groups;
      AddGroupFits(Fill(groups[..n], first, maxBytes), first, groups[n], maxBytes);
    }
  }

  // ----- and no fewer parts would do by merging neighbours --------------------------

  ghost predicate Tight(parts: seq<seq<Member>>, first: seq<ZipInfo>, maxBytes: nat) {
    forall i :: 0 <= i < |parts| - 1 ==>
      Size(Lead(first, i) + MemberInfos(parts[i] + parts[i + 1])) > maxBytes
  }

  // Two consecutive parts never fit the cap together.
  lemma {:induction false} PackIsTight(groups: seq<Group>, first: seq<ZipInfo>, maxBytes: nat)
    ensures Tight(Pack(groups, first, maxBytes), first, maxBytes)
  {
    if groups != [] {
      var n := |groups| - 1;
      var f := Fill(groups[..n], first, maxBytes);
      var m := |f.parts| - 1;
      PackIsTight(groups[..n], first, maxBytes);
      FillingInfos(groups[..n], first, maxBytes);
      var parts := Pack(groups, first, maxBytes);
      if Size(f.infos + MemberInfos(groups[n])) > maxBytes {
        MergedSize(Lead(first, m), f.parts[m], groups[n], []);
        assert groups[n] + [] == groups[n];
      } else if m > 0 {
        MergedSize(Lead(first, m - 1), f.parts[m - 1], f.parts[m], groups[n]);
      }
    }
  }

  lemma MergedSize(lead: seq<ZipInfo>, a: seq<Member>, b: seq<Member>, more: seq<Member>)
    ensures lead + MemberInfos(a) + MemberInfos(b) == lead + MemberInfos(a + b)
    ensures Size(lead + MemberInfos(a + b)) <= Size(lead + MemberInfos(a + (b + more)))
  {
    MemberInfosAppend(a, b);
    MemberInfosAppend(a + b, more);
    assert a + (b + more) == a + b + more;
    SizeOfAppend(lead + MemberInfos(a + b), MemberInfos(more));
    assert lead + MemberInfos(a + b) + MemberInfos(more) == lead + MemberInfos(a + b + more);
  }

  // ----- the reservation and the number of parts ----------------------------------

  // A larger reservation never packs into fewer parts than two if a smaller one did not.
  lemma {:induction false} LargerLeadStaysSplit(groups: seq<Group>, small: ZipInfo, large: ZipInfo, maxBytes: nat)
    requires AtMost(small, large)
    requires |Pack(groups, [large], maxBytes)| == 1
    ensures |Pack(groups, [small], maxBytes)| == 1
  {
    hide Size, MemberInfos, Flatten, AtMost;
    if groups != [] {
      var n := |groups| - 1;
      var f, g := Fill(groups[..n], [large], maxBytes), Fill(groups[..n], [small], maxBytes);
      LargerLeadStaysSplit(groups[..n], small, large, maxBytes);
      FillingInfos(groups[..n], [large], maxBytes);
      FillingInfos(groups[..n], [small], maxBytes);
      PackIsLossless(groups[..n], [large], maxBytes);
      PackIsLossless(groups[..n], [small], maxBytes);
      SinglePart(f.parts);
      SinglePart(g.parts);
      LeadSize(small, large, MemberInfos(f.parts[0]), MemberInfos(groups[n]));
    }
  }

  lemma LeadSize(small: ZipInfo, large: ZipInfo, infos: seq<ZipInfo>, more: seq<ZipInfo>)
    requires AtMost(small, large)
    ensures Size([small] + infos + more) <= Size([large] + infos + more)
  {
    SizeMonotone([small] + infos + more, [large] + infos + more);
  }

  lemma SinglePart(parts: seq<seq<Member>>)
    requires |parts| == 1
    ensures Flatten(parts) == parts[0]
  {
    assert Flatten(parts) == parts[0] + Flatten(parts[1..]);
  }
}
