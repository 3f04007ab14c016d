/** The zip sink as the class it is: fields updated in place, metadata objects shared
    with the caller's manifest. Every method is proved to do what the state machine
    of SinkModel says, so that module's run theorems are about this class. */
module ZipSinks {
  import opened Basics
  import opened Json
  import opened ZipLayout
  import opened Manifest
  import opened Packing
  import Model = SinkModel
  import opened SinkModel
  import opened SinkInvariants
  import opened SinkOrder

  datatype OpenError = NotPositive | NotAFolder

  // One folder, neither here nor above, that no path separator divides.
  predicate IsFolderName(kind: string) {
    kind != "" && kind != "." && kind != ".." && forall i :: 0 <= i < |kind| ==> kind[i] != '/' && kind[i] != '\\'
  }

  class ZipSink {
    const config: Config
    const libs: Libraries
    // The attach callback and the disk: what they do at each attempt.
    const env: nat -> Fate

    var groups: seq<Staged>
    var addFailed: set<Metadata>
    var confirmed: set<Metadata>
    var attempted: set<string>
    var downloads: seq<string>
    var finishParts: Option<seq<seq<Member>>>
    var manifestName: Option<string>
    var manifestFilename: string
    var finalizing: bool
    var names: set<string>
    var finished: bool
    var closed: bool
    var warnings: seq<Warning>
    var attempts: nat

    // Every metadata object met so far, and a record of the attempts.
    ghost var objects: set<Metadata>
    ghost var events: seq<Event>

    ghost function Held(): Store
      reads this`objects, objects
    {
      map m | m in objects :: m.fields
    }

    ghost function State(): Sink
      reads this, objects
    {
      Sink(config, groups, addFailed, confirmed, attempted, downloads,
           if finishParts.Some? then Some(Plan(finishParts.value, manifestName, manifestFilename)) else None,
           finalizing, names, finished, closed, Held(), warnings, events)
    }

    ghost predicate Valid()
      reads this, objects
    {
      && attempts == |events|
      && Metas(AllStaged(groups)) <= objects && addFailed <= objects
      && (finishParts.Some? ==>
            |finishParts.value| > 0
            && forall i :: 0 <= i < |finishParts.value| ==> Metas(finishParts.value[i]) <= objects)
    }

    constructor (kind: string, filename: string, maxBytes: nat, libs: Libraries, env: nat -> Fate)
      ensures Valid() && State() == Initial(Config(kind, filename, maxBytes))
      ensures this.libs == libs && this.env == env && objects == {}
    {
      this.config := Config(kind, filename, maxBytes);
      this.libs, this.env := libs, env;
      groups, addFailed, confirmed, attempted, downloads := [], {}, {}, {}, [];
      finishParts, manifestName, manifestFilename := None, None, "";
      finalizing, names, finished, closed, warnings, attempts := false, {}, false, false, [], 0;
      objects, events := {}, [];
    }

    // `__init__` with its refusals: a size that holds nothing, a kind that is no folder name.
    static method Open(kind: string, filename: string, maxBytes: int, libs: Libraries, env: nat -> Fate)
      returns (r: Result<ZipSink, OpenError>)
      ensures r == Err(NotPositive) <==> maxBytes < 1
      ensures r == Err(NotAFolder) <==> maxBytes >= 1 && !IsFolderName(kind)
      ensures r.Ok? ==>
        && fresh(r.value) && r.value.Valid() && r.value.State() == Initial(Config(kind, filename, maxBytes))
        && r.value.libs == libs && r.value.env == env && r.value.objects == {}
    {
      if maxBytes < 1 { return Err(NotPositive); }
      if kind == "" || '/' in kind || '\\' in kind || kind in {".", ".."} { return Err(NotAFolder); }
      var sink := new ZipSink(kind, filename, maxBytes, libs, env);
      return Ok(sink);
    }

    // ----- flags

    method MarkMissing(members: seq<Member>)
      requires Valid() && Metas(members) <= objects
      modifies objects
      ensures Valid() && State() == Missing(old(State()), members)
    {
      ghost var before := Held();
      for k := 0 to |members|
        invariant Held() == Marked(before, members[..k])
      {
        var m := members[k].metadata;
        assert m in Metas(members);
        MarkedOnce(before, members, k);
        m.fields := Put(m.fields, FLAG, Bool(true));
      }
      assert members[..|members|] == members;
    }

    method ClearFlags(members: seq<Member>)
      requires Valid() && Metas(members) <= objects
      modifies objects
      ensures Valid() && State() == old(State()).(store := Cleared(old(State()).store, members))
    {
      ghost var before := Held();
      for k := 0 to |members|
        invariant Held() == Cleared(before, members[..k])
      {
        var m := members[k].metadata;
        assert m in Metas(members);
        ClearedOnce(before, members, k);
        m.fields := Drop(m.fields, FLAG);
      }
      assert members[..|members|] == members;
    }

    method MarkConfirmed(members: seq<Member>)
      requires Valid() && Metas(members) <= objects
      modifies objects, this`confirmed
      ensures Valid() && State() == Confirm(old(State()), members)
    {
      ClearFlags(members);
      confirmed := confirmed + (set x | x in members :: x.metadata);
    }

    // ----- add

    // A caller that brings no metadata dictionary gets a new one.
    method Add(filename: string, payload: Json, device: Option<string>, given: Metadata?, fault: Fault)
      returns (error: Option<SinkError>, metadata: Metadata)
      requires Valid()
      modifies this, given
      ensures Valid()
      ensures if given == null then fresh(metadata) else metadata == given
      ensures (State(), error) == Model.Add(old(State()), filename, payload, device, metadata,
                                            if given == null then [] else old(given.fields), fault, libs)
    {
      if given == null {
        metadata := new Metadata([]);
      } else {
        metadata := given;
      }
      error := AddTo(filename, payload, device, metadata, fault);
    }

    method AddTo(filename: string, payload: Json, device: Option<string>, metadata: Metadata, fault: Fault)
      returns (error: Option<SinkError>)
      requires Valid()
      modifies this, metadata
      ensures Valid()
      ensures (State(), error)
           == Model.Add(old(State()), filename, payload, device, metadata, old(metadata.fields), fault, libs)
    {
      hide AllStaged, JsonBytes, Named, Measured, Enlisted, AddFailed, Held;
      if closed || finished {
        return Some(SinkClosed);
      }
      if finalizing {
        return Some(Finalizing);
      }
      if filename in names {
        return Some(DuplicateName);
      }
      error := AddOpen(filename, payload, device, metadata, fault);
    }

    // What `add` does once it has refused nothing.
    method AddOpen(filename: string, payload: Json, device: Option<string>, metadata: Metadata, fault: Fault)
      returns (error: Option<SinkError>)
      requires Valid() && AddRefusal(State(), filename).None?
      modifies this, metadata
      ensures Valid()
      ensures (State(), error)
           == Model.Add(old(State()), filename, payload, device, metadata, old(metadata.fields), fault, libs)
    {
      hide AllStaged, JsonBytes, Named, Measured, Enlisted, AddFailed, State, Valid, AddRefusal;
      Name(metadata, filename);
      if fault == NotSerializable {
        Fail(metadata);
        return Some(NotStaged);
      }
      var data := JsonBytes(payload);
      Measure(metadata, filename, data);
      if fault == NotWritten {
        Fail(metadata);
        return Some(NotStaged);
      }
      Enlist(filename, device, data, metadata);
      if fault == InterruptedAfterStaging {
        Fail(metadata);
        return Some(NotStaged);
      }
      return None;
    }

    // `metadata["name"] = filename`
    method Name(metadata: Metadata, filename: string)
      requires Valid()
      modifies metadata, this`objects
      ensures Valid() && metadata in objects
      ensures State() == Named(old(State()), metadata, old(metadata.fields), filename)
    {
      objects := objects + {metadata};
      metadata.fields := Put(metadata.fields, "name", Str(filename));
      assert Held() == old(Held())[metadata := metadata.fields];
    }

    // `metadata.update(_metadata(filename, data))`
    method Measure(metadata: Metadata, filename: string, data: seq<byte>)
      requires Valid() && metadata in objects
      modifies metadata
      ensures Valid() && State() == Measured(old(State()), metadata, filename, data, libs)
    {
      hide Described, AllStaged;
      metadata.fields := Described(metadata.fields, filename, data, libs);
      assert Held() == old(Held())[metadata := metadata.fields];
    }

    method Enlist(filename: string, device: Option<string>, data: seq<byte>, metadata: Metadata)
      requires Valid() && metadata in objects
      modifies this`names, this`groups
      ensures Valid() && State() == Enlisted(old(State()), filename, device, data, metadata, libs)
    {
      hide AllStaged, Stage;
      var member := NewMember(config.kind, filename, data, metadata, libs);
      StagedMetas(groups, GroupKey(filename, device), member);
      names := names + {filename};
      groups := Stage(groups, GroupKey(filename, device), member);
    }

    method Fail(metadata: Metadata)
      requires Valid() && metadata in objects
      modifies metadata, this`addFailed
      ensures Valid() && State() == AddFailed(old(State()), metadata)
    {
      metadata.fields := Put(metadata.fields, FLAG, Bool(true));
      addFailed := addFailed + {metadata};
      assert Held() == old(Held())[metadata := Put(old(metadata.fields), FLAG, Bool(true))];
    }

    // ----- plan

    // `_plan`: the groups to pack; those too large on their own are flagged and reported.
    method PlanGroups() returns (kept: seq<Group>)
      requires Valid()
      modifies objects, this`warnings
      ensures Valid() && State() == AfterPlan(old(State()))
      ensures kept == PlanningGroups(old(State()))
    {
      hide Live, AllStaged, Size, Flatten, Marked, Kept, Dropped, MemberInfos, Metas;
      kept := [];
      NothingPlanned(addFailed, config.maxBytes);
      ghost var before := Held();
      ghost var dropped: seq<Group> := [];
      EmptyMarks(before);
      for k := 0 to |groups|
        invariant Valid()
        invariant kept == Kept(groups[..k], addFailed, config.maxBytes)
        invariant dropped == Dropped(groups[..k], addFailed, config.maxBytes)
        invariant Held() == Marked(before, Flatten(dropped))
        invariant warnings == old(warnings) + GroupWarnings(dropped)
      {
        PlannedOneMore(groups, k, addFailed, config.maxBytes);
        var live := Live(groups[k].members, addFailed);
        if live != [] {
          var size := ArchiveSize(MemberInfos(live));
          if size > config.maxBytes {
            LiveIsHeld(groups, k, addFailed);
            MarkMissing(live);
            warnings := warnings + [GroupTooLarge(live)];
            MarkedMore(before, dropped, live);
            dropped := dropped + [live];
          } else {
            kept := kept + [live];
          }
        }
      }
      assert groups[..|groups|] == groups;
    }

    // The parts for a manifest of this content, and whether the manifest can go along.
    method ChooseParts(kept: seq<Group>, filename: string, read: Json)
      returns (parts: seq<seq<Member>>, attachable: bool)
      ensures attachable == ManifestAttachable(config, filename, read, libs)
      ensures parts == PlannedParts(kept, ManifestPath(config, filename), read, config.maxBytes, libs)
    {
      hide Size, JsonBytes, Pack;
      var name := config.kind + "/" + filename;
      var info := Some(CompressedInfo(name, JsonBytes(read), libs));
      var size := ArchiveSize([info.value]);
      attachable := size <= config.maxBytes;
      if !attachable {
        info := None;
      }
      parts := Parts(kept, info, config.maxBytes);
      if info.Some? && |parts| > 1 {
        var bound := BoundInfo(name, read);
        var boundSize := ArchiveSize([bound]);
        if boundSize <= config.maxBytes {
          parts := Parts(kept, Some(bound), config.maxBytes);
        } else {
          var rest := Parts(kept, None, config.maxBytes);
          parts := [[]] + rest;
        }
      }
    }

    method Warn(warning: Warning)
      requires Valid()
      modifies this`warnings
      ensures Valid() && State() == old(State()).(warnings := old(State()).warnings + [warning])
    {
      warnings := warnings + [warning];
    }

    method Fix(plan: Plan)
      requires Valid() && State().plan.None? && |plan.parts| > 0
      requires forall i :: 0 <= i < |plan.parts| ==> Metas(plan.parts[i]) <= objects
      modifies this`finishParts, this`manifestName, this`manifestFilename
      ensures Valid() && State() == old(State()).(plan := Some(plan))
    {
      manifestName, manifestFilename, finishParts := plan.manifestName, plan.manifestFilename, Some(plan.parts);
    }

    // What `json` reads from the manifest now.
    method ReadManifest(manifest: Doc) returns (read: Json)
      requires Valid() && Shareds(manifest) <= objects
      ensures read == Resolve(manifest, State().store) && State().config == config
    {
      ReadIsResolve(manifest, Held());
      read := Read(manifest);
    }

    // `_prepare_finish`
    method PrepareFinish(filename: string, manifest: Doc)
      requires Valid() && State().plan.None? && Shareds(manifest) <= objects
      modifies objects, this`warnings, this`finishParts, this`manifestName, this`manifestFilename
      ensures Valid() && State() == Prepare(old(State()), filename, manifest, libs)
    {
      hide State, Valid, Live, AllStaged, Size, JsonBytes, Resolve, PlannedParts, Kept, Dropped, ManifestAttachable,
           Metas;
      SameConfig();
      var kept := PlanGroups();
      var read := ReadManifest(manifest);
      var parts, attachable := ChooseParts(kept, filename, read);
      ghost var planned := State();
      if !attachable {
        Warn(ManifestTooLarge(filename));
      }
      assert planned.warnings + [] == planned.warnings;
      HeldParts(filename, read);
      Fix(Plan(parts, if attachable then Some(ManifestPath(config, filename)) else None, filename));
    }

    ghost method HeldParts(filename: string, read: Json)
      requires Valid()
      ensures var parts := PlannedParts(PlanningGroups(State()), ManifestPath(config, filename), read, config.maxBytes,
                                        libs);
              forall i :: 0 <= i < |parts| ==> Metas(parts[i]) <= objects
    {
      hide PlannedParts, AllStaged, Held;
      PartsAreHeld(State(), ManifestPath(config, filename), read, libs);
    }

    // ----- finish

    method Log(ghost event: Event)
      requires Valid()
      modifies this`attempts, this`events
      ensures Valid() && State() == Recorded(old(State()), event)
    {
      attempts := attempts + 1;
      events := events + [event];
    }

    method SettlePart(name: string, members: seq<Member>, attached: bool)
      requires Valid() && Metas(members) <= objects
      modifies objects, this`attempted, this`downloads, this`confirmed
      ensures Valid() && State() == Settle(old(State()), name, members, attached)
    {
      hide AllStaged, Held, Confirm, Missing;
      if attached {
        downloads := downloads + [name];
      }
      attempted := attempted + {name};
      if attached {
        MarkConfirmed(members);
      } else {
        MarkMissing(members);
      }
    }

    method SkipPart(name: string)
      requires Valid()
      modifies this`attempted
      ensures Valid() && State() == old(State()).(attempted := old(State()).attempted + {name})
    {
      attempted := attempted + {name};
    }

    // Build a part and hand it to the callback; false when something raised.
    method Deliver(index: nat, name: string, manifest: Option<Doc>, path: string, members: seq<Member>)
      returns (going: bool)
      requires Valid() && Metas(members) <= objects && (manifest.Some? ==> Shareds(manifest.value) <= objects)
      modifies objects, this`attempts, this`events, this`attempted, this`downloads, this`confirmed
      ensures Valid()
      ensures (State(), going)
           == Attempt(old(State()),
                      EventOf(old(State()), index, name, manifest, path, members, libs, env(old(attempts))))
    {
      hide State, Valid, JsonBytes, Resolve, BuildPart, AllStaged, Settle, Metas;
      var text: Option<seq<byte>> := None;
      if manifest.Some? {
        var read := ReadManifest(manifest.value);
        text := Some(JsonBytes(read));
      }
      SameConfig();
      var fate := env(attempts);
      var archive := BuildPart(path, text, members, libs);
      var outcome := OutcomeOf(fate, |archive|, config.maxBytes);
      Log(EventOf(State(), index, name, manifest, path, members, libs, fate));
      going := outcome.Attached? || outcome.Refused?;
      if going {
        SettlePart(name, members, outcome.Attached?);
      }
    }

    ghost method SameConfig()
      ensures State().config == config
    {
    }

    // A part with no answer yet.
    method AttemptPart(index: nat, name: string, members: seq<Member>, manifest: Doc, path: Option<string>)
      returns (going: bool)
      requires Valid() && Metas(members) <= objects && Shareds(manifest) <= objects
      modifies objects, this`attempts, this`events, this`attempted, this`downloads, this`confirmed, this`warnings
      ensures Valid()
      ensures (State(), going)
           == AttemptPending(old(State()), manifest, index, name, members, path, manifestFilename, libs,
                             env(old(attempts)))
    {
      hide State, Valid, JsonBytes, Resolve, EventOf, Attempt, AllStaged, Cleared, Size, Metas;
      ClearFlags(members);
      if path.None? {
        if members == [] {
          SkipPart(name);
          return true;
        }
        going := Deliver(index, name, None, "", members);
        return;
      }
      var read := ReadManifest(manifest);
      var size := ArchiveSize([CompressedInfo(path.value, JsonBytes(read), libs)] + MemberInfos(members));
      if size <= config.maxBytes {
        going := Deliver(index, name, Some(manifest), path.value, members);
        return;
      }
      Warn(ManifestOutgrew(manifestFilename));
      if members == [] {
        SkipPart(name);
        return true;
      }
      going := Deliver(index, name, None, "", members);
    }

    method FinishOne(index: nat, ghost plan: Plan, manifest: Doc) returns (going: bool)
      requires Valid() && State().plan == Some(plan) && index < |plan.parts| && Shareds(manifest) <= objects
      modifies objects, this`attempts, this`events, this`attempted, this`downloads, this`confirmed, this`warnings
      ensures Valid() && State().plan == Some(plan)
      ensures (State(), going) == FinishPart(old(State()), plan, manifest, index, libs, env)
    {
      hide AllStaged, AttemptPending, PartFilename, Held, Confirm, Missing;
      var members := finishParts.value[index];
      var name := PartFilename(config.filename, index, |finishParts.value|);
      if name in downloads {
        MarkConfirmed(members);
        return true;
      }
      if name in attempted {
        MarkMissing(members);
        return true;
      }
      going := AttemptPart(index, name, members, manifest, if index == 0 then manifestName else None);
    }

    method Finish(filename: string, manifest: Doc) returns (r: Result<seq<string>, SinkError>)
      requires Valid()
      modifies this, objects, Shareds(manifest)
      ensures Valid()
      ensures (State(), r) == Model.Finish(old(State()), filename, manifest, old(Contents(manifest)), libs, env)
    {
      hide AllStaged, FinishFrom, Prepare, Contents, Shareds;
      if finished {
        return Ok(downloads);
      }
      if closed {
        return Err(SinkClosed);
      }
      r := FinishOpen(filename, manifest);
    }

    // What `finish` does while the sink is open.
    method FinishOpen(filename: string, manifest: Doc) returns (r: Result<seq<string>, SinkError>)
      requires Valid() && !State().finished && !State().closed
      modifies this, objects, Shareds(manifest)
      ensures Valid()
      ensures (State(), r) == Model.Finish(old(State()), filename, manifest, old(Contents(manifest)), libs, env)
    {
      hide State, Valid, AllStaged, FinishFrom, Prepare, Contents, Shareds;
      Begin(manifest);
      var planned := IsPlanned();
      if !planned {
        PrepareFinish(filename, manifest);
      } else if filename != manifestFilename {
        return Err(ManifestRenamed);
      }
      var done := FinishAll(manifest);
      var listed := Listed();
      r := if done then Ok(listed) else Err(Interrupted);
    }

    method Begin(manifest: Doc)
      requires Valid()
      modifies this`finalizing, this`objects
      ensures Valid() && objects == old(objects) + Shareds(manifest)
      ensures State() == old(State()).(finalizing := true, store := old(Contents(manifest)) + old(State()).store)
    {
      hide AllStaged;
      finalizing := true;
      objects := objects + Shareds(manifest);
      assert Held() == old(Contents(manifest)) + old(Held());
    }

    method IsPlanned() returns (planned: bool)
      ensures planned == State().plan.Some?
      ensures planned ==> State().plan.value.manifestFilename == manifestFilename
    {
      planned := finishParts.Some?;
    }

    method Listed() returns (listed: seq<string>)
      ensures listed == State().downloads
    {
      listed := downloads;
    }

    // The loop of `finish`: parts 2..n, then part 1.
    method FinishAll(manifest: Doc) returns (done: bool)
      requires Valid() && State().plan.Some? && Shareds(manifest) <= objects
      modifies this, objects
      ensures Valid()
      ensures (State(), done) == FinishFrom(old(State()), old(State()).plan.value, manifest, 0, libs, env)
    {
      hide AllStaged, FinishPart;
      var count := |finishParts.value|;
      ghost var start := State();
      ghost var plan := start.plan.value;
      for k := 0 to count
        invariant Valid() && State().plan == Some(plan) && Shareds(manifest) <= objects == old(objects)
        invariant FinishFrom(start, plan, manifest, 0, libs, env) == FinishFrom(State(), plan, manifest, k, libs, env)
      {
        var going := FinishOne(Position(k, count), plan, manifest);
        if !going {
          return false;
        }
      }
      finished, closed := true, true;
      return true;
    }

    // ----- close

    method Close()
      requires Valid()
      modifies this`closed, objects
      ensures Valid() && State() == Model.Close(old(State()))
    {
      if !finished {
        var open := Live(AllMembers(groups), confirmed);
        AllMembersHeld(groups, confirmed);
        MarkMissing(open);
      }
      closed := true;
    }
  }

  // Marking one member more, marked already or not.
  lemma MarkedOnce(store: Store, members: seq<Member>, k: nat)
    requires k < |members| && members[k].metadata in store
    ensures var m := members[k].metadata;
            var now := Marked(store, members[..k]);
            Marked(store, members[..k + 1]) == now[m := Put(now[m], FLAG, Bool(true))]
  {
    PutPut(store[members[k].metadata], FLAG, Bool(true));
    assert members[..k + 1] == members[..k] + [members[k]];
  }

  lemma ClearedOnce(store: Store, members: seq<Member>, k: nat)
    requires k < |members| && members[k].metadata in store
    ensures var m := members[k].metadata;
            var now := Cleared(store, members[..k]);
            Cleared(store, members[..k + 1]) == now[m := Drop(now[m], FLAG)]
  {
    DropDrop(store[members[k].metadata], FLAG);
    assert members[..k + 1] == members[..k] + [members[k]];
  }

  lemma {:induction false} PutPut(fs: seq<Field>, key: string, v: Json)
    ensures Put(Put(fs, key, v), key, v) == Put(fs, key, v)
  {
    if fs == [] {
      assert [Field(key, v)][1..] == [];
    } else if fs[0].key == key {
      DropDrop(fs[1..], key);
      assert Put(fs, key, v)[1..] == Drop(fs[1..], key);
    } else {
      PutPut(fs[1..], key, v);
      assert Put(fs, key, v)[1..] == Put(fs[1..], key, v);
    }
  }

  lemma {:induction false} StagedMetas(groups: seq<Staged>, key: Key, x: Member)
    ensures Metas(AllStaged(Stage(groups, key, x))) == Metas(AllStaged(groups)) + {x.metadata}
  {
    var t := Stage(groups, key, x);
    if groups == [] {
      assert t[1..] == [] && AllStaged(t) == [x] + AllStaged([]) == [x];
    } else {
      MetasAppend(groups[0].members, AllStaged(groups[1..]));
      MetasAppend(t[0].members, AllStaged(t[1..]));
      if groups[0].key == key {
        MetasAppend(groups[0].members, [x]);
        assert t[1..] == groups[1..];
      } else {
        assert t[1..] == Stage(groups[1..], key, x);
        StagedMetas(groups[1..], key, x);
      }
    }
  }

  // ----- what the manifest reads -------------------------------------------------------

  function Read(doc: Doc): Json
    reads Shareds(doc)
    decreases doc, 1
  {
    match doc
    case Plain(value) => value
    case Array(items) => List(ReadItems(items))
    case Object(entries) => Dict(ReadEntries(entries))
    case Shared(m) => Dict(m.fields)
  }

  function ReadItems(items: seq<Doc>): seq<Json>
    reads SharedItems(items)
    decreases items, 0
  {
    if items == [] then [] else [Read(items[0])] + ReadItems(items[1..])
  }

  function ReadEntries(entries: seq<Entry>): seq<Field>
    reads SharedEntries(entries)
    decreases entries, 0
  {
    if entries == [] then [] else [Field(entries[0].key, Read(entries[0].value))] + ReadEntries(entries[1..])
  }

  ghost function Contents(doc: Doc): Store
    reads Shareds(doc)
  {
    map m | m in Shareds(doc) :: m.fields
  }

  lemma {:induction false} ReadIsResolve(doc: Doc, store: Store)
    requires forall m :: m in Shareds(doc) ==> m in store && store[m] == m.fields
    ensures Read(doc) == Resolve(doc, store)
    decreases doc, 1
  {
    match doc
    case Plain(_) =>
    case Array(items) => ReadItemsIsResolve(items, store);
    case Object(entries) => ReadEntriesIsResolve(entries, store);
    case Shared(_) =>
  }

  lemma {:induction false} ReadItemsIsResolve(items: seq<Doc>, store: Store)
    requires forall m :: m in SharedItems(items) ==> m in store && store[m] == m.fields
    ensures ReadItems(items) == ResolveItems(items, store)
    decreases items, 0
  {
    if items != [] {
      ReadIsResolve(items[0], store);
      ReadItemsIsResolve(items[1..], store);
    }
  }

  lemma {:induction false} ReadEntriesIsResolve(entries: seq<Entry>, store: Store)
    requires forall m :: m in SharedEntries(entries) ==> m in store && store[m] == m.fields
    ensures ReadEntries(entries) == ResolveEntries(entries, store)
    decreases entries, 0
  {
    if entries != [] {
      ReadIsResolve(entries[0].value, store);
      ReadEntriesIsResolve(entries[1..], store);
    }
  }

  // ----- members are held ---------------------------------------------------------------

  function AllMembers(groups: seq<Staged>): seq<Member> { AllStaged(groups) }

  lemma NothingPlanned(failed: set<Metadata>, maxBytes: nat)
    ensures Kept([], failed, maxBytes) == [] && Dropped([], failed, maxBytes) == []
  {
  }

  lemma PlannedOneMore(groups: seq<Staged>, k: nat, failed: set<Metadata>, maxBytes: nat)
    requires k < |groups|
    ensures var live := Live(groups[k].members, failed);
            var large := Size(MemberInfos(live)) > maxBytes;
            && Kept(groups[..k + 1], failed, maxBytes)
               == Kept(groups[..k], failed, maxBytes) + (if live == [] || large then [] else [live])
            && Dropped(groups[..k + 1], failed, maxBytes)
               == Dropped(groups[..k], failed, maxBytes) + (if live != [] && large then [live] else [])
  {
    hide Live, Size, MemberInfos;
    assert groups[..k + 1][..k] == groups[..k] && groups[..k + 1][k] == groups[k];
  }

  lemma EmptyMarks(store: Store)
    ensures Marked(store, Flatten([])) == store
  {
  }

  lemma MarkedMore(store: Store, dropped: seq<Group>, live: seq<Member>)
    ensures Marked(Marked(store, Flatten(dropped)), live) == Marked(store, Flatten(dropped + [live]))
  {
    FlattenSnoc(dropped, live);
    MetasAppend(Flatten(dropped), live);
    forall m | m in store { PutPut(store[m], FLAG, Bool(true)); }
  }

  lemma {:induction false} LiveIsHeld(groups: seq<Staged>, k: nat, failed: set<Metadata>)
    requires k < |groups|
    ensures Metas(Live(groups[k].members, failed)) <= Metas(AllStaged(groups))
  {
    forall m | m in Metas(Live(groups[k].members, failed))
      ensures m in Metas(AllStaged(groups))
    {
      var x: Member :| x in Live(groups[k].members, failed) && x.metadata == m;
      InLive(groups[k].members, failed, x);
      StagedAt(groups, k, x);
    }
  }

  lemma {:induction false} StagedAt(groups: seq<Staged>, k: nat, x: Member)
    requires k < |groups| && x in groups[k].members
    ensures x in AllStaged(groups)
  {
    if k > 0 { StagedAt(groups[1..], k - 1, x); }
  }

  lemma AllMembersHeld(groups: seq<Staged>, failed: set<Metadata>)
    ensures Metas(Live(AllMembers(groups), failed)) <= Metas(AllStaged(groups))
  {
    forall m | m in Metas(Live(AllMembers(groups), failed))
      ensures m in Metas(AllStaged(groups))
    {
      var x: Member :| x in Live(AllMembers(groups), failed) && x.metadata == m;
      InLive(AllMembers(groups), failed, x);
    }
  }

  lemma PartsAreHeld(s: Sink, name: string, manifest: Json, libs: Libraries)
    ensures var parts := PlannedParts(PlanningGroups(s), name, manifest, s.config.maxBytes, libs);
            forall i :: 0 <= i < |parts| ==> Metas(parts[i]) <= Metas(AllStaged(s.groups))
  {
    hide PlannedParts, Size, AllStaged, Live, Kept;
    var parts := PlannedParts(PlanningGroups(s), name, manifest, s.config.maxBytes, libs);
    KeptFits(s.groups, s.addFailed, s.config.maxBytes);
    PlannedPartsOk(PlanningGroups(s), name, manifest, s.config.maxBytes, libs);
    forall i, m | 0 <= i < |parts| && m in Metas(parts[i])
      ensures m in Metas(AllStaged(s.groups))
    {
      var x: Member :| x in parts[i] && x.metadata == m;
      assert InParts(parts, x);
      InFlatten(parts, x);
      KeptIsStaged(s.groups, s.addFailed, s.config.maxBytes, x);
    }
  }
}
