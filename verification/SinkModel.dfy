/** The zip sink as a state machine: what `add`, `finish` and `close` do to its
    fields and to the metadata objects it shares with the manifest. */
module SinkModel {
  import opened Basics
  import opened Decimal
  import opened Json
  import opened ZipLayout
  import opened Manifest
  import opened Packing

  datatype Key = Device(name: string) | File(name: string)

  // One entry of `_groups`.
  datatype Staged = Staged(key: Key, members: seq<Member>)

  datatype Warning =
    | GroupTooLarge(members: seq<Member>)
    | ManifestTooLarge(filename: string)
    | ManifestOutgrew(filename: string)

  // What the world does to the n-th attempt to build a part and attach it.
  datatype Fate = Attaches | Refuses | AttachRaises | BuildRaises

  datatype Outcome = Attached | Refused | AttachRaised | BuildRaised | TooLarge

  // An attempt: which part, its name, its manifest, the metadata at that moment,
  // its members, the bytes built and how it ended.
  datatype Event = Event(index: nat, name: string, doc: Option<Doc>, store: Store, members: seq<Member>,
                         archive: seq<byte>, outcome: Outcome)

  datatype Config = Config(kind: string, filename: string, maxBytes: nat)

  // What `_prepare_finish` fixes: the parts, the manifest's member name (None when
  // it cannot be attached at all) and the filename later calls must repeat.
  datatype Plan = Plan(parts: seq<seq<Member>>, manifestName: Option<string>, manifestFilename: string)

  datatype Sink = Sink(
    config: Config,
    groups: seq<Staged>,
    addFailed: set<Metadata>,
    confirmed: set<Metadata>,
    attempted: set<string>,
    downloads: seq<string>,
    plan: Option<Plan>,
    finalizing: bool,
    names: set<string>,
    finished: bool,
    closed: bool,
    store: Store,
    warnings: seq<Warning>,
    events: seq<Event>)

  function Initial(config: Config): Sink {
    Sink(config, [], {}, {}, {}, [], None, false, {}, false, false, map[], [], [])
  }

  datatype SinkError = SinkClosed | Finalizing | DuplicateName | NotStaged | ManifestRenamed | Interrupted

  // ----- flags ------------------------------------------------------------------

  function Metas(members: seq<Member>): set<Metadata> {
    set x | x in members :: x.metadata
  }

  lemma MetasAppend(a: seq<Member>, b: seq<Member>)
    ensures Metas(a + b) == Metas(a) + Metas(b)
  {
  }

  // `_mark_missing`
  function Marked(store: Store, members: seq<Member>): Store {
    map m | m in store :: if m in Metas(members) then Put(store[m], FLAG, Bool(true)) else store[m]
  }

  // `metadata.pop("not_attached", None)`
  function Cleared(store: Store, members: seq<Member>): Store {
    map m | m in store :: if m in Metas(members) then Drop(store[m], FLAG) else store[m]
  }

  function Missing(s: Sink, members: seq<Member>): Sink {
    s.(store := Marked(s.store, members))
  }

  function Confirm(s: Sink, members: seq<Member>): Sink {
    s.(store := Cleared(s.store, members), confirmed := s.confirmed + Metas(members))
  }

  // ----- add --------------------------------------------------------------------

  datatype Fault = NoFault | NotSerializable | NotWritten | InterruptedAfterStaging

  function Stage(groups: seq<Staged>, key: Key, member: Member): seq<Staged> {
    if groups == [] then [Staged(key, [member])]
    else if groups[0].key == key then [Staged(key, groups[0].members + [member])] + groups[1..]
    else [groups[0]] + Stage(groups[1..], key, member)
  }

  function Described(fs: seq<Field>, filename: string, data: seq<byte>, libs: Libraries): seq<Field> {
    Put(Put(Put(fs, "name", Str(filename)), "bytes", Int(|data|)), "sha256", Str(libs.sha256(data)))
  }

  function NewMember(kind: string, filename: string, data: seq<byte>, metadata: Metadata, libs: Libraries): Member {
    Member(CompressedInfo(kind + "/" + filename, data, libs), data, metadata)
  }

  function GroupKey(filename: string, device: Option<string>): Key {
    if device.Some? then Device(device.value) else File(filename)
  }

  function AddRefusal(s: Sink, filename: string): Option<SinkError> {
    if s.closed || s.finished then Some(SinkClosed)
    else if s.finalizing then Some(Finalizing)
    else if filename in s.names then Some(DuplicateName)
    else None
  }

  // `metadata["name"] = filename`; `given` is what the object holds if the sink never met it.
  function Named(s: Sink, metadata: Metadata, given: seq<Field>, filename: string): (t: Sink)
    ensures metadata in t.store
  {
    var fields := if metadata in s.store then s.store[metadata] else given;
    s.(store := s.store[metadata := Put(fields, "name", Str(filename))])
  }

  // `metadata.update(_metadata(filename, data))`
  function Measured(s: Sink, metadata: Metadata, filename: string, data: seq<byte>, libs: Libraries): (t: Sink)
    requires metadata in s.store
    ensures metadata in t.store
  {
    s.(store := s.store[metadata := Described(s.store[metadata], filename, data, libs)])
  }

  function Enlisted(s: Sink, filename: string, device: Option<string>, data: seq<byte>, metadata: Metadata,
                    libs: Libraries): (t: Sink)
    ensures t.store == s.store
  {
    s.(names := s.names + {filename},
       groups := Stage(s.groups, GroupKey(filename, device), NewMember(s.config.kind, filename, data, metadata, libs)))
  }

  function Add(s: Sink, filename: string, payload: Json, device: Option<string>, metadata: Metadata,
               given: seq<Field>, fault: Fault, libs: Libraries): (Sink, Option<SinkError>)
  {
    if AddRefusal(s, filename).Some? then (s, AddRefusal(s, filename))
    else
      var named := Named(s, metadata, given, filename);
      if fault.NotSerializable? then (AddFailed(named, metadata), Some(NotStaged))
      else
        var data := JsonBytes(payload);
        var measured := Measured(named, metadata, filename, data, libs);
        if fault.NotWritten? then (AddFailed(measured, metadata), Some(NotStaged))
        else
          var staged := Enlisted(measured, filename, device, data, metadata, libs);
          if fault.InterruptedAfterStaging? then (AddFailed(staged, metadata), Some(NotStaged)) else (staged, None)
  }

  // The `except` branch: the object is flagged and remembered as failed.
  function AddFailed(s: Sink, metadata: Metadata): Sink
    requires metadata in s.store
  {
    s.(store := s.store[metadata := Put(s.store[metadata], FLAG, Bool(true))], addFailed := s.addFailed + {metadata})
  }

  // ----- plan -------------------------------------------------------------------

  function Live(members: seq<Member>, failed: set<Metadata>): seq<Member> {
    if members == [] then []
    else
      var rest := Live(members[..|members| - 1], failed);
      var last := members[|members| - 1];
      if last.metadata in failed then rest else rest + [last]
  }

  // The groups a plan keeps, and those it drops for passing the cap on their own.
  function Kept(groups: seq<Staged>, failed: set<Metadata>, maxBytes: nat): seq<Group> {
    if groups == [] then []
    else
      var rest := Kept(groups[..|groups| - 1], failed, maxBytes);
      var live := Live(groups[|groups| - 1].members, failed);
      if live == [] || Size(MemberInfos(live)) > maxBytes then rest else rest + [live]
  }

  function Dropped(groups: seq<Staged>, failed: set<Metadata>, maxBytes: nat): seq<Group> {
    if groups == [] then []
    else
      var rest := Dropped(groups[..|groups| - 1], failed, maxBytes);
      var live := Live(groups[|groups| - 1].members, failed);
      if live == [] || Size(MemberInfos(live)) <= maxBytes then rest else rest + [live]
  }

  // What a plan packs.
  function PlanningGroups(s: Sink): seq<Group> { Kept(s.groups, s.addFailed, s.config.maxBytes) }

  function GroupWarnings(dropped: seq<Group>): (r: seq<Warning>)
    ensures |r| == |dropped|
  {
    seq(|dropped|, i requires 0 <= i < |dropped| => GroupTooLarge(dropped[i]))
  }

  function AfterPlan(s: Sink): Sink {
    var dropped := Dropped(s.groups, s.addFailed, s.config.maxBytes);
    s.(store := Marked(s.store, Flatten(dropped)), warnings := s.warnings + GroupWarnings(dropped))
  }

  // The parts fixed by `_prepare_finish`, for a manifest of this content.
  function PlannedParts(groups: seq<Group>, name: string, manifest: Json, maxBytes: nat, libs: Libraries)
    : (parts: seq<seq<Member>>)
    ensures |parts| > 0
  {
    var info := CompressedInfo(name, JsonBytes(manifest), libs);
    if Size([info]) > maxBytes then Pack(groups, [], maxBytes)
    else if |Pack(groups, [info], maxBytes)| == 1 then Pack(groups, [info], maxBytes)
    else if Size([BoundInfo(name, manifest)]) <= maxBytes then Pack(groups, [BoundInfo(name, manifest)], maxBytes)
    else [[]] + Pack(groups, [], maxBytes)
  }

  function ManifestPath(config: Config, manifestFilename: string): string { config.kind + "/" + manifestFilename }

  predicate ManifestAttachable(config: Config, manifestFilename: string, manifest: Json, libs: Libraries) {
    Size([CompressedInfo(ManifestPath(config, manifestFilename), JsonBytes(manifest), libs)]) <= config.maxBytes
  }

  function PlanFor(config: Config, groups: seq<Group>, manifestFilename: string, manifest: Json, libs: Libraries)
    : (plan: Plan)
    ensures |plan.parts| > 0
  {
    var name := ManifestPath(config, manifestFilename);
    Plan(PlannedParts(groups, name, manifest, config.maxBytes, libs),
         if ManifestAttachable(config, manifestFilename, manifest, libs) then Some(name) else None,
         manifestFilename)
  }

  // `_prepare_finish`
  function Prepare(s: Sink, manifestFilename: string, doc: Doc, libs: Libraries): (r: Sink)
    ensures r.plan.Some?
  {
    var p := AfterPlan(s);
    var manifest := Resolve(doc, p.store);
    var warned := if ManifestAttachable(s.config, manifestFilename, manifest, libs) then []
                  else [ManifestTooLarge(manifestFilename)];
    p.(warnings := p.warnings + warned,
       plan := Some(PlanFor(s.config, PlanningGroups(s), manifestFilename, manifest, libs)))
  }

  // ----- finish -----------------------------------------------------------------

  function PartStem(filename: string): string {
    if |filename| >= 4 && IsZip(filename[|filename| - 4..]) then filename[..|filename| - 4] else filename
  }

  // `.lower().endswith(".zip")`
  predicate IsZip(s: string)
    requires |s| == 4
  {
    s[0] == '.' && s[1] in {'z', 'Z'} && s[2] in {'i', 'I'} && s[3] in {'p', 'P'}
  }

  function PartFilename(filename: string, index: nat, count: nat): string {
    if count == 1 then filename
    else PartStem(filename) + "_part" + Digits(index + 1) + "of" + Digits(count) + ".zip"
  }

  function StoredAs(info: ZipInfo, data: seq<byte>, libs: Libraries): Stored {
    Stored(info, libs.crc32(data), 0, libs.deflate(data))
  }

  function StoredMembers(members: seq<Member>, libs: Libraries): (r: seq<Stored>)
    ensures |r| == |members|
  {
    seq(|members|, i requires 0 <= i < |members| => StoredAs(members[i].info, members[i].data, libs))
  }

  function StoredManifest(name: string, text: Option<seq<byte>>, libs: Libraries): seq<Stored> {
    match text
    case Some(data) => [StoredAs(CompressedInfo(name, data, libs), data, libs)]
    case None => []
  }

  // `_build_part`, before it looks at the size.
  function BuildPart(name: string, text: Option<seq<byte>>, members: seq<Member>, libs: Libraries): seq<byte> {
    Archive(StoredManifest(name, text, libs) + StoredMembers(members, libs))
  }

  function ManifestText(doc: Option<Doc>, store: Store): Option<seq<byte>> {
    match doc
    case Some(d) => Some(JsonBytes(Resolve(d, store)))
    case None => None
  }

  function Recorded(s: Sink, event: Event): Sink { s.(events := s.events + [event]) }

  // What `_attach_file` and `finish` do with the callback's answer.
  function Settle(s: Sink, name: string, members: seq<Member>, attached: bool): Sink {
    if attached then
      Confirm(s.(downloads := s.downloads + [name], attempted := s.attempted + {name}), members)
    else Missing(s.(attempted := s.attempted + {name}), members)
  }

  function OutcomeOf(fate: Fate, size: nat, maxBytes: nat): Outcome {
    if fate.BuildRaises? then BuildRaised
    else if size > maxBytes then TooLarge
    else if fate.AttachRaises? then AttachRaised
    else if fate.Refuses? then Refused
    else Attached
  }

  function EventOf(s: Sink, index: nat, name: string, doc: Option<Doc>, manifestName: string, members: seq<Member>,
                   libs: Libraries, fate: Fate): Event
  {
    var archive := BuildPart(manifestName, ManifestText(doc, s.store), members, libs);
    Event(index, name, doc, s.store, members, archive, OutcomeOf(fate, |archive|, s.config.maxBytes))
  }

  // Build a part and hand it to the callback; false when something raised.
  function Attempt(s: Sink, event: Event): (Sink, bool) {
    if event.outcome.Attached? || event.outcome.Refused? then
      (Settle(Recorded(s, event), event.name, event.members, event.outcome.Attached?), true)
    else (Recorded(s, event), false)
  }

  // Would the manifest, as it now reads, still fit beside part 1's members?
  predicate FitsNow(manifestName: string, manifest: Json, members: seq<Member>, maxBytes: nat, libs: Libraries) {
    Size([CompressedInfo(manifestName, JsonBytes(manifest), libs)] + MemberInfos(members)) <= maxBytes
  }

  // A part not yet settled: its flags are cleared, then it is built and attached,
  // part 1 with the manifest if the manifest still fits.
  function AttemptPending(s: Sink, doc: Doc, index: nat, name: string, members: seq<Member>,
                          manifestName: Option<string>, manifestFilename: string, libs: Libraries, fate: Fate)
    : (Sink, bool)
  {
    var pending := s.(store := Cleared(s.store, members));
    match manifestName
    case None =>
      if members == [] then (pending.(attempted := s.attempted + {name}), true)
      else Attempt(pending, EventOf(pending, index, name, None, "", members, libs, fate))
    case Some(path) =>
      if FitsNow(path, Resolve(doc, pending.store), members, s.config.maxBytes, libs) then
        Attempt(pending, EventOf(pending, index, name, Some(doc), path, members, libs, fate))
      else
        var warned := pending.(warnings := s.warnings + [ManifestOutgrew(manifestFilename)]);
        if members == [] then (warned.(attempted := s.attempted + {name}), true)
        else Attempt(warned, EventOf(warned, index, name, None, "", members, libs, fate))
  }

  // One turn of `finish`'s loop.
  function FinishPart(s: Sink, plan: Plan, doc: Doc, index: nat, libs: Libraries, env: nat -> Fate): (Sink, bool)
    requires index < |plan.parts|
  {
    var members := plan.parts[index];
    var name := PartFilename(s.config.filename, index, |plan.parts|);
    if name in s.downloads then (Confirm(s, members), true)
    else if name in s.attempted then (Missing(s, members), true)
    else AttemptPending(s, doc, index, name, members, if index == 0 then plan.manifestName else None,
                        plan.manifestFilename, libs, env(|s.events|))
  }

  // Parts 2..n first, part 1 last.
  function Position(k: nat, count: nat): nat { if k + 1 < count then k + 1 else 0 }

  function FinishFrom(s: Sink, plan: Plan, doc: Doc, k: nat, libs: Libraries, env: nat -> Fate): (Sink, bool)
    requires k <= |plan.parts|
    decreases |plan.parts| - k
  {
    if k == |plan.parts| then (s.(finished := true, closed := true), true)
    else
      var (next, going) := FinishPart(s, plan, doc, Position(k, |plan.parts|), libs, env);
      if !going then (next, false) else FinishFrom(next, plan, doc, k + 1, libs, env)
  }

  // `given` is what the manifest's shared objects hold that the sink has not met.
  function Finish(s: Sink, manifestFilename: string, doc: Doc, given: Store, libs: Libraries, env: nat -> Fate)
    : (Sink, Result<seq<string>, SinkError>)
  {
    if s.finished then (s, Ok(s.downloads))
    else if s.closed then (s, Err(SinkClosed))
    else
      var begun := s.(finalizing := true, store := given + s.store);
      if begun.plan.Some? && begun.plan.value.manifestFilename != manifestFilename then (begun, Err(ManifestRenamed))
      else
        var planned := if begun.plan.Some? then begun else Prepare(begun, manifestFilename, doc, libs);
        var (end, done) := FinishFrom(planned, planned.plan.value, doc, 0, libs, env);
        (end, if done then Ok(end.downloads) else Err(Interrupted))
  }

  // ----- close ------------------------------------------------------------------

  function AllStaged(groups: seq<Staged>): seq<Member> {
    if groups == [] then [] else groups[0].members + AllStaged(groups[1..])
  }

  function Close(s: Sink): Sink {
    if s.finished then s.(closed := true)
    else s.(store := Marked(s.store, Live(AllStaged(s.groups), s.confirmed)), closed := true)
  }

  // ----- runs -------------------------------------------------------------------

  datatype Op =
    | AddOp(filename: string, payload: Json, device: Option<string>, metadata: Metadata, given: seq<Field>,
            fault: Fault)
    | FinishOp(manifestFilename: string, doc: Doc, known: Store)
    | CloseOp

  function Apply(s: Sink, op: Op, libs: Libraries, env: nat -> Fate): Sink {
    match op
    case AddOp(filename, payload, device, metadata, given, fault) =>
      Add(s, filename, payload, device, metadata, given, fault, libs).0
    case FinishOp(manifestFilename, doc, known) => Finish(s, manifestFilename, doc, known, libs, env).0
    case CloseOp => Close(s)
  }

  // Operations one after another, with the states before, between and after them.
  datatype Trace = Trace(states: seq<Sink>, ops: seq<Op>)

  ghost predicate StepAt(t: Trace, k: nat, libs: Libraries, env: nat -> Fate)
    requires k < |t.ops| && k + 1 < |t.states|
  {
    t.states[k + 1] == Apply(t.states[k], t.ops[k], libs, env)
  }

  ghost predicate IsRun(t: Trace, config: Config, libs: Libraries, env: nat -> Fate) {
    && |t.states| == |t.ops| + 1 && t.states[0] == Initial(config)
    && forall k: nat :: k < |t.ops| ==> StepAt(t, k, libs, env)
  }

  // Any operations make a run.
  lemma {:induction false} RunOf(config: Config, ops: seq<Op>, libs: Libraries, env: nat -> Fate) returns (t: Trace)
    ensures t.ops == ops && IsRun(t, config, libs, env)
  {
    hide Apply;
    if ops == [] {
      t := Trace([Initial(config)], []);
    } else {
      var n := |ops| - 1;
      var before := RunOf(config, ops[..n], libs, env);
      t := Trace(before.states + [Apply(before.states[n], ops[n], libs, env)], ops);
      forall k: nat | k < |ops| ensures StepAt(t, k, libs, env) {
        if k < n { assert StepAt(before, k, libs, env); }
      }
    }
  }
}
