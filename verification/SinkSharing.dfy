/** How far a metadata object may be shared: within a part freely, across parts never. */
module SinkSharing {
  import opened Basics
  import opened Json
  import opened ZipLayout
  import opened Manifest
  import opened Packing
  import opened SinkModel
  import opened SinkInvariants
  import opened SinkOrder
  import opened SinkSafety

  // ----- sharing within one device is always sharing within one part ------------------------

  ghost predicate GroupsApart(groups: seq<Staged>) {
    forall i, j :: 0 <= i < j < |groups| ==>
      groups[i].key != groups[j].key && Metas(groups[i].members) !! Metas(groups[j].members)
  }

  // An artifact staged here describes itself in no object that another device's uses.
  ghost predicate OwnMetadata(s: Sink, op: Op) {
    op.AddOp? && AddRefusal(s, op.filename).None? && (op.fault.NoFault? || op.fault.InterruptedAfterStaging?) ==>
      ForeignTo(s.groups, GroupKey(op.filename, op.device), op.metadata)
  }

  ghost predicate ForeignTo(groups: seq<Staged>, key: Key, m: Metadata) {
    forall i :: 0 <= i < |groups| && groups[i].key != key ==> m !in Metas(groups[i].members)
  }

  ghost predicate HasGroup(groups: seq<Staged>, key: Key) {
    exists k :: 0 <= k < |groups| && groups[k].key == key
  }

  // Staging extends the group of the key, or opens one.
  lemma {:induction false} StagedWhere(groups: seq<Staged>, key: Key, x: Member)
    ensures var t := Stage(groups, key, x);
      && (HasGroup(groups, key) ==> |t| == |groups|)
      && (!HasGroup(groups, key) ==> t == groups + [Staged(key, [x])])
      && |t| >= |groups|
      && forall i :: 0 <= i < |groups| ==>
           t[i].key == groups[i].key
           && (t[i].members == groups[i].members || (groups[i].key == key && t[i].members == groups[i].members + [x]))
  {
    if groups != [] && groups[0].key != key {
      StagedWhere(groups[1..], key, x);
      assert groups == [groups[0]] + groups[1..];
      assert forall i :: 1 <= i < |groups| ==> groups[i] == groups[1..][i - 1];
      if HasGroup(groups, key) {
        var k :| 0 <= k < |groups| && groups[k].key == key;
        assert groups[1..][k - 1].key == key;
      }
    }
  }

  lemma StageKeepsApart(groups: seq<Staged>, key: Key, x: Member)
    requires GroupsApart(groups) && ForeignTo(groups, key, x.metadata)
    ensures GroupsApart(Stage(groups, key, x))
  {
    hide Stage;
    var t := Stage(groups, key, x);
    StagedWhere(groups, key, x);
    forall i, j | 0 <= i < j < |t| ensures t[i].key != t[j].key && Metas(t[i].members) !! Metas(t[j].members) {
      if j < |groups| {
        MetasAppend(groups[i].members, [x]);
        MetasAppend(groups[j].members, [x]);
        assert Metas([x]) == {x.metadata};
        assert groups[i].key != groups[j].key;
      } else {
        assert Metas([x]) == {x.metadata};
        assert groups[i].key != key;
      }
    }
  }

  lemma {:induction false} InAllStaged(groups: seq<Staged>, x: Member)
    ensures x in AllStaged(groups) <==> exists a :: 0 <= a < |groups| && x in groups[a].members
  {
    if groups != [] {
      InAllStaged(groups[1..], x);
      assert groups == [groups[0]] + groups[1..];
      if x in AllStaged(groups[1..]) {
        var a :| 0 <= a < |groups[1..]| && x in groups[1..][a].members;
        assert x in groups[a + 1].members;
      }
      if a :| 0 <= a < |groups| && x in groups[a].members {
        if a > 0 { assert x in groups[1..][a - 1].members; }
      }
    }
  }

  // A kept artifact is a live one of some group that is kept whole.
  lemma KeptFrom(groups: seq<Staged>, failed: set<Metadata>, maxBytes: nat, y: Member) returns (b: nat)
    requires y in Flatten(Kept(groups, failed, maxBytes))
    ensures b < |groups| && y in Live(groups[b].members, failed)
    ensures Live(groups[b].members, failed) in Kept(groups, failed, maxBytes)
  {
    hide Live, Kept, Size;
    var kept := Kept(groups, failed, maxBytes);
    InFlatten(kept, y);
    var i :| 0 <= i < |kept| && y in kept[i];
    assert kept[i] in kept;
    DroppedIffTooLarge(groups, failed, maxBytes, kept[i]);
    b :| 0 <= b < |groups| && kept[i] == Live(groups[b].members, failed);
  }

  lemma LiveMetas(members: seq<Member>, failed: set<Metadata>)
    ensures Metas(Live(members, failed)) <= Metas(members)
  {
    forall m | m in Metas(Live(members, failed)) ensures m in Metas(members) {
      var x: Member :| x in Live(members, failed) && x.metadata == m;
      InLive(members, failed, x);
    }
  }

  lemma {:induction false} KeptWithin(groups: seq<Staged>, failed: set<Metadata>, maxBytes: nat, g: Group)
    requires g in Kept(groups, failed, maxBytes)
    ensures exists b :: 0 <= b < |groups| && Metas(g) <= Metas(groups[b].members)
  {
    hide Live, Kept, Size;
    DroppedIffTooLarge(groups, failed, maxBytes, g);
    var b :| 0 <= b < |groups| && g == Live(groups[b].members, failed);
    LiveMetas(groups[b].members, failed);
  }

  lemma {:induction false} KeptSeparate(groups: seq<Staged>, failed: set<Metadata>, maxBytes: nat)
    requires GroupsApart(groups)
    ensures Separate(Kept(groups, failed, maxBytes))
  {
    hide Live, Size;
    if groups != [] {
      var n := |groups| - 1;
      var rest, kept := Kept(groups[..n], failed, maxBytes), Kept(groups, failed, maxBytes);
      KeptSeparate(groups[..n], failed, maxBytes);
      LiveMetas(groups[n].members, failed);
      forall i, j | 0 <= i < j < |kept| ensures Metas(kept[i]) !! Metas(kept[j]) {
        if j < |rest| {
          assert kept[i] == rest[i] && kept[j] == rest[j];
        } else {
          assert rest[i] in rest && kept[i] == rest[i];
          KeptWithin(groups[..n], failed, maxBytes, rest[i]);
          var b :| 0 <= b < n && Metas(rest[i]) <= Metas(groups[..n][b].members);
          assert groups[..n][b] == groups[b];
        }
      }
    }
  }

  // Where a group of a run stands among all of them.
  function Before<T>(runs: seq<seq<T>>, i: nat): nat
    requires i <= |runs|
  {
    if i == 0 then 0 else Before(runs, i - 1) + |runs[i - 1]|
  }

  lemma {:induction false} BeforeGrows<T>(runs: seq<seq<T>>, i: nat, j: nat)
    requires i < j <= |runs|
    ensures Before(runs, i) + |runs[i]| <= Before(runs, j)
  {
    if i < j - 1 { BeforeGrows(runs, i, j - 1); }
  }

  lemma {:induction false} FlattenAt<T>(runs: seq<seq<T>>, i: nat, u: nat)
    requires i < |runs| && u < |runs[i]|
    ensures Before(runs, i) + u < |Flatten(runs)| && Flatten(runs)[Before(runs, i) + u] == runs[i][u]
  {
    if i > 0 {
      FlattenAt(runs[1..], i - 1, u);
      BeforeTail(runs, i);
    }
  }

  lemma {:induction false} BeforeTail<T>(runs: seq<seq<T>>, i: nat)
    requires 0 < i <= |runs|
    ensures Before(runs, i) == |runs[0]| + Before(runs[1..], i - 1)
  {
    if i > 1 { BeforeTail(runs, i - 1); }
  }

  // Parts made of whole groups that stand apart stand apart.
  lemma PackSeparate(groups: seq<Group>, first: seq<ZipInfo>, maxBytes: nat)
    requires Separate(groups)
    ensures Separate(Pack(groups, first, maxBytes))
  {
    hide Pack, Runs, Size;
    PackDivides(groups, first, maxBytes);
    var runs, parts := Runs(groups, first, maxBytes), Pack(groups, first, maxBytes);
    forall i, j | 0 <= i < j < |parts| ensures Metas(parts[i]) !! Metas(parts[j]) {
      forall x: Member, y: Member | x in parts[i] && y in parts[j] ensures x.metadata != y.metadata {
        InFlatten(runs[i], x);
        InFlatten(runs[j], y);
        var u :| 0 <= u < |runs[i]| && x in runs[i][u];
        var v :| 0 <= v < |runs[j]| && y in runs[j][v];
        FlattenAt(runs, i, u);
        FlattenAt(runs, j, v);
        BeforeGrows(runs, i, j);
        assert x.metadata in Metas(runs[i][u]) && y.metadata in Metas(runs[j][v]);
      }
    }
  }

  lemma PlannedSeparate(groups: seq<Group>, name: string, manifest: Json, maxBytes: nat, libs: Libraries)
    requires Separate(groups)
    ensures Separate(PlannedParts(groups, name, manifest, maxBytes, libs))
  {
    hide Pack, Size, JsonBytes, BoundInfo;
    var info, bound := CompressedInfo(name, JsonBytes(manifest), libs), BoundInfo(name, manifest);
    PackSeparate(groups, [], maxBytes);
    PackSeparate(groups, [info], maxBytes);
    PackSeparate(groups, [bound], maxBytes);
    var isolated := [[]] + Pack(groups, [], maxBytes);
    assert Metas([]) == {};
    forall i, j | 0 <= i < j < |isolated| ensures Metas(isolated[i]) !! Metas(isolated[j]) {
      if i > 0 {
        assert isolated[i] == Pack(groups, [], maxBytes)[i - 1] && isolated[j] == Pack(groups, [], maxBytes)[j - 1];
      }
    }
  }

  // Devices that share no metadata object are planned apart.
  lemma OwnGroupsPlanApart(s: Sink, manifestFilename: string, manifest: Json, libs: Libraries)
    requires GroupsApart(s.groups)
    ensures Apart(s.groups, PlanFor(s.config, PlanningGroups(s), manifestFilename, manifest, libs).parts)
  {
    hide PlannedParts, Kept, Size, Live, AllStaged, Separate;
    var kept := PlanningGroups(s);
    var parts := PlanFor(s.config, kept, manifestFilename, manifest, libs).parts;
    var name := ManifestPath(s.config, manifestFilename);
    KeptSeparate(s.groups, s.addFailed, s.config.maxBytes);
    PlannedSeparate(kept, name, manifest, s.config.maxBytes, libs);
    KeptFits(s.groups, s.addFailed, s.config.maxBytes);
    PlannedPartsOk(kept, name, manifest, s.config.maxBytes, libs);
    forall x, i | x in AllStaged(s.groups) && !InParts(parts, x) && 0 <= i < |parts|
      ensures x.metadata !in Metas(parts[i])
    {
      if x.metadata in Metas(parts[i]) {
        var y: Member :| y in parts[i] && y.metadata == x.metadata;
        InFlatten(parts, y);
        InFlatten(parts, x);
        assert InParts(parts, y);
        SharesGroup(s, x, y);
      }
    }
  }

  // An artifact described by the object of a kept one is kept with it.
  lemma SharesGroup(s: Sink, x: Member, y: Member)
    requires GroupsApart(s.groups) && x in AllStaged(s.groups) && y in Flatten(PlanningGroups(s))
    requires x.metadata == y.metadata
    ensures x in Flatten(PlanningGroups(s))
  {
    hide Kept, Size, AllStaged;
    var b := KeptFrom(s.groups, s.addFailed, s.config.maxBytes, y);
    InAllStaged(s.groups, x);
    var a :| 0 <= a < |s.groups| && x in s.groups[a].members;
    InLive(s.groups[b].members, s.addFailed, y);
    assert x.metadata in Metas(s.groups[a].members) && y.metadata in Metas(s.groups[b].members);
    assert a == b;
    InLive(s.groups[b].members, s.addFailed, x);
    var kept, live := PlanningGroups(s), Live(s.groups[b].members, s.addFailed);
    var i :| 0 <= i < |kept| && kept[i] == live;
    assert InParts(kept, x);
    InFlatten(kept, x);
  }

  ghost predicate OwnAt(t: Trace, k: nat)
    requires k < |t.ops| && k < |t.states|
  {
    OwnMetadata(t.states[k], t.ops[k])
  }

  // A run in which no two devices share a metadata object.
  ghost predicate OwnRun(t: Trace, config: Config, libs: Libraries, env: nat -> Fate) {
    && IsRun(t, config, libs, env)
    && forall k: nat :: k < |t.ops| ==> OwnAt(t, k)
  }

  // As long as no plan is made, the groups stand apart.
  ghost predicate PlansOwn(s: Sink) { s.plan.None? ==> GroupsApart(s.groups) }

  lemma OwnPlansApart(s: Sink, op: Op, libs: Libraries)
    requires PlansOwn(s)
    ensures KeepsApart(s, op, libs)
  {
    hide Apart, GroupsApart, Kept, PlanFor, Resolve;
    if op.FinishOp? && s.plan.None? && !s.closed {
      var begun := Begun(s, op.known);
      OwnGroupsPlanApart(begun, op.manifestFilename, Resolve(op.doc, AfterPlan(begun).store), libs);
    }
  }

  lemma OwnAfterAdd(s: Sink, op: Op, libs: Libraries, env: nat -> Fate)
    requires PlansOwn(s) && OwnMetadata(s, op) && op.AddOp?
    ensures PlansOwn(Apply(s, op, libs, env))
  {
    hide GroupsApart, ForeignTo, Stage, JsonBytes;
    if AddRefusal(s, op.filename).None? && s.plan.None? {
      var data := JsonBytes(op.payload);
      var key := GroupKey(op.filename, op.device);
      var x := NewMember(s.config.kind, op.filename, data, op.metadata, libs);
      if op.fault.NoFault? || op.fault.InterruptedAfterStaging? { StageKeepsApart(s.groups, key, x); }
    }
  }

  lemma OwnAfterFinish(s: Sink, op: Op, libs: Libraries, env: nat -> Fate)
    requires Orderly(s, libs) && PlansOwn(s) && op.FinishOp?
    ensures PlansOwn(Apply(s, op, libs, env))
  {
    hide PlanOrder, StagedOk, NamedOnce, GroupsApart, FinishFrom, AfterPlan, PlanFor;
    if !s.finished && !s.closed {
      var begun := Begun(s, op.known);
      BegunOrders(s, op.known, libs);
      if s.plan.None? {
        PrepareOrders(begun, op.manifestFilename, op.doc, libs);
        LoopKeepsStaging(Prepare(begun, op.manifestFilename, op.doc, libs), op.doc, libs, env);
      } else if s.plan.value.manifestFilename == op.manifestFilename {
        LoopKeepsStaging(begun, op.doc, libs, env);
      }
    }
  }

  lemma {:induction false} OwnRunKeeps(t: Trace, config: Config, libs: Libraries, env: nat -> Fate, k: nat)
    requires OwnRun(t, config, libs, env) && k < |t.states|
    ensures PlansOwn(t.states[k])
  {
    hide Orderly, PlansOwn, Apply, OwnMetadata;
    if k == 0 {
      InitialOwn(config);
    } else {
      OwnRunKeeps(t, config, libs, env, k - 1);
      RunOrderly(t, config, libs, env, k - 1);
      var s, op := t.states[k - 1], t.ops[k - 1];
      assert StepAt(t, k - 1, libs, env) && OwnAt(t, k - 1);
      match op
      case AddOp(_, _, _, _, _, _) => OwnAfterAdd(s, op, libs, env);
      case FinishOp(_, _, _) => OwnAfterFinish(s, op, libs, env);
      case CloseOp => OwnAfterClose(s, libs, env);
    }
  }

  lemma InitialOwn(config: Config)
    ensures PlansOwn(Initial(config))
  {
  }

  lemma OwnAfterClose(s: Sink, libs: Libraries, env: nat -> Fate)
    requires PlansOwn(s)
    ensures PlansOwn(Apply(s, CloseOp, libs, env))
  {
    hide GroupsApart;
  }

  // Whatever the artifacts of one device share, a run in which devices share nothing plans
  // apart, so all that holds of such runs holds of it.
  lemma OwnRunsAreApart(t: Trace, config: Config, libs: Libraries, env: nat -> Fate)
    requires OwnRun(t, config, libs, env)
    ensures ApartRun(t, config, libs, env)
  {
    hide PlansOwn, KeepsApart, Apply, OwnMetadata;
    forall k: nat | k < |t.ops| ensures ApartAt(t, k, libs) {
      OwnRunKeeps(t, config, libs, env, k);
      OwnPlansApart(t.states[k], t.ops[k], libs);
    }
  }
}
