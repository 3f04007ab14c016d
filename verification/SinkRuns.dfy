/** Two runs of the zip sink, one that ends with a false manifest and one that leaves its
    manifest out: what the conditions of the theorems about it are for. */
module SinkRuns {
  import opened Basics
  import opened Json
  import opened ZipLayout
  import opened Manifest
  import opened Packing
  import opened SinkModel
  import opened SinkInvariants
  import opened SinkOrder
  import opened SinkSafety
  import opened SinkReservation
  import opened SinkAnswers
  import opened SinkNeed
  import opened SinkOutgrown

  // ----- sizes -------------------------------------------------------------------------------

  predicate IsPlain(s: string) {
    forall i :: 0 <= i < |s| ==> ' ' <= s[i] <= '~' && s[i] != '"' && s[i] != '\\'
  }

  lemma {:induction false} PlainQuote(s: string)
    requires IsPlain(s)
    ensures |Quote(s)| == |s| + 2
  {
    PlainLength(s);
  }

  lemma {:induction false} PlainLength(s: string)
    requires IsPlain(s)
    ensures |Escape(s)| == |s|
  {
    if s != "" { PlainLength(s[1..]); }
  }

  // What describes an artifact of four bytes with this digest.
  function Entry4(filename: string, digest: string): seq<Field> {
    [Field("name", Str(filename))] + ([Field("bytes", Int(4))] + ([Field("sha256", Str(digest))] + []))
  }

  lemma OneMoreField(f: Field, fs: seq<Field>)
    requires IsPlain(f.key)
    ensures FieldsLen([f] + fs, 1) == 7 + |f.key| + Len(f.value, 1) + FieldsLen(fs, 1)
  {
    PlainQuote(f.key);
    assert ([f] + fs)[1..] == fs;
  }

  lemma EntryFields(filename: string, digest: string)
    requires |filename| == 1 && IsPlain(filename) && |digest| == 64 && IsPlain(digest)
    ensures FieldsLen(Entry4(filename, digest), 1) == 106
  {
    hide FieldsLen, Escape, Quote, IsPlain;
    var name, bytes, sha := Field("name", Str(filename)), Field("bytes", Int(4)), Field("sha256", Str(digest));
    PlainQuote(filename);
    PlainKeys();
    PlainQuote(digest);
    NoFields();
    OneMoreField(sha, []);
    OneMoreField(bytes, [sha] + []);
    OneMoreField(name, [bytes] + ([sha] + []));
  }

  lemma NoFields()
    ensures FieldsLen([], 1) == 0
  {
  }

  lemma PlainKeys()
    ensures IsPlain("name") && IsPlain("bytes") && IsPlain("sha256") && IsPlain(FLAG)
  {
  }

  lemma EntryLength(filename: string, digest: string)
    requires |filename| == 1 && IsPlain(filename) && |digest| == 64 && IsPlain(digest)
    ensures |JsonBytes(Dict(Entry4(filename, digest)))| == 108
  {
    hide JsonBytes, FieldsLen;
    DumpsLength(Dict(Entry4(filename, digest)));
    EntryFields(filename, digest);
  }

  lemma NoFlagYet(filename: string, digest: string)
    ensures var fs := Entry4(filename, digest);
      && Drop(fs, FLAG) == fs && Put(fs, FLAG, Bool(true)) != [] && Put(fs, FLAG, Bool(false)) != []
      && IsMetadata(fs) && Find(fs, FLAG) == None
  {
    var fs := Entry4(filename, digest);
    AbsentDrop(fs, FLAG);
    NotFound(fs, FLAG);
    assert DistinctKeys(fs);
    FindAt(fs, 0, "name", fs[0].value);
    FindAt(fs, 1, "bytes", fs[1].value);
    FindAt(fs, 2, "sha256", fs[2].value);
  }

  // The flag takes as much room as its value prints.
  lemma FlaggedLength(filename: string, digest: string, flag: bool)
    requires |filename| == 1 && IsPlain(filename) && |digest| == 64 && IsPlain(digest)
    ensures |JsonBytes(Dict(Put(Entry4(filename, digest), FLAG, Bool(flag))))| == if flag then 131 else 132
  {
    hide JsonBytes, FieldsLen, Put, Drop, Quote, Entry4;
    var fs := Entry4(filename, digest);
    var flagged := Put(fs, FLAG, Bool(flag));
    DumpsLength(Dict(flagged));
    EntryFields(filename, digest);
    PlainKeys();
    PlainQuote(FLAG);
    NoFlagYet(filename, digest);
    PutLength(fs, FLAG, Bool(flag), 1);
    assert Len(Dict(flagged), 0) == 2 + FieldsLen(flagged, 1);
  }

  predicate IsSmall(x: ZipInfo) {
    |x.filename| == 3 && IsAscii(x.filename) && x.fileSize < 1000 && x.compressSize < 1000
  }

  lemma SmallName(x: ZipInfo)
    requires IsSmall(x)
    ensures |NameBytes(x.filename)| == 3
  {
    var name := x.filename;
    assert name[1..][1..] == name[2..] && name[2..][1..] == "";
    assert |NameBytes(name[2..])| == 1;
    assert |NameBytes(name[1..])| == 2;
  }

  lemma SmallStep(x: ZipInfo, at: Cursor)
    requires IsSmall(x) && at.offset < 10000
    ensures Advance(at, x) == Cursor(at.offset + 33 + x.compressSize, at.directory + 49)
  {
    SmallName(x);
  }

  lemma WalkOn(x: ZipInfo, infos: seq<ZipInfo>, at: Cursor)
    ensures Walk([x] + infos, at) == Walk(infos, Advance(at, x)) && Walk([], Advance(at, x)) == Advance(at, x)
  {
    assert ([x] + infos)[1..] == infos;
  }

  // The sizes of archives of one, two and three small members.
  lemma SmallSizes(x: ZipInfo, y: ZipInfo, z: ZipInfo)
    requires IsSmall(x) && IsSmall(y) && IsSmall(z)
    ensures Size([x]) == 104 + x.compressSize
    ensures Size([x, y]) == 186 + x.compressSize + y.compressSize
    ensures Size([x, y, z]) == 268 + x.compressSize + y.compressSize + z.compressSize
  {
    hide Walk, Advance;
    SmallWalk(x, y, z);
  }

  lemma SmallWalk(x: ZipInfo, y: ZipInfo, z: ZipInfo)
    requires IsSmall(x) && IsSmall(y) && IsSmall(z)
    ensures var start := Cursor(0, 0);
      && Walk([x], start) == Cursor(33 + x.compressSize, 49)
      && Walk([x, y], start) == Cursor(66 + x.compressSize + y.compressSize, 98)
      && Walk([x, y, z], start) == Cursor(99 + x.compressSize + y.compressSize + z.compressSize, 147)
  {
    hide Walk, Advance;
    var start := Cursor(0, 0);
    var one := Cursor(33 + x.compressSize, 49);
    var two := Cursor(one.offset + 33 + y.compressSize, 98);
    SmallStep(x, start);
    SmallStep(y, one);
    SmallStep(z, two);
    WalkOn(x, [], start);
    WalkOn(x, [y], start);
    WalkOn(x, [y, z], start);
    WalkOn(y, [], one);
    WalkOn(y, [z], one);
    WalkOn(z, [], two);
    assert [x] + [] == [x] && [x] + [y] == [x, y] && [x] + [y, z] == [x, y, z];
    assert [y] + [] == [y] && [y] + [z] == [y, z] && [z] + [] == [z];
  }

  // ----- staging ------------------------------------------------------------------------------

  // Streams within zlib's bound, digests of 64 plain characters.
  ghost predicate Usual(libs: Libraries) {
    Bounded(libs) && forall data :: |libs.sha256(data)| == 64 && IsPlain(libs.sha256(data))
  }

  // What describes the artifact of this name whose payload is null.
  function NullEntry(filename: string, libs: Libraries): seq<Field> { Entry4(filename, libs.sha256(JsonBytes(Null))) }

  function NullMember(filename: string, m: Metadata, libs: Libraries): Member {
    NewMember("k", filename, JsonBytes(Null), m, libs)
  }

  // How long its stream is, and that of a manifest which is its description, unflagged or not.
  function NullStream(libs: Libraries): nat { |libs.deflate(JsonBytes(Null))| }

  function EntryStream(filename: string, libs: Libraries): nat {
    |libs.deflate(JsonBytes(Dict(NullEntry(filename, libs))))|
  }

  function FlaggedStream(filename: string, libs: Libraries): nat {
    |libs.deflate(JsonBytes(Dict(Put(NullEntry(filename, libs), FLAG, Bool(true)))))|
  }

  lemma NullIsSmall(filename: string, m: Metadata, libs: Libraries)
    requires |filename| == 1 && IsAscii(filename) && Usual(libs)
    ensures |JsonBytes(Null)| == 4 && IsSmall(NullMember(filename, m, libs).info)
    ensures var x := NullMember(filename, m, libs); x.info.compressSize == NullStream(libs) && x.metadata == m
    ensures SoundMember(NullMember(filename, m, libs), libs)
  {
    hide JsonBytes, IsAscii, IsPlain;
    NullLength();
    PathIsAscii(filename);
    assert NullStream(libs) <= DeflateBound(4);
  }

  lemma NullLength()
    ensures |JsonBytes(Null)| == 4
  {
    hide JsonBytes;
    DumpsLength(Null);
  }

  lemma PathIsAscii(filename: string)
    requires IsAscii(filename)
    ensures IsAscii("k/" + filename) && |"k" + "/" + filename| == 2 + |filename|
      && "k" + "/" + filename == "k/" + filename
  {
  }

  // Describing an artifact anew replaces what described another.
  lemma DescribedAnew(fs: seq<Field>, other: string, filename: string, libs: Libraries)
    requires fs == [] || fs == NullEntry(other, libs)
    ensures Described(Put(fs, "name", Str(filename)), filename, JsonBytes(Null), libs) == NullEntry(filename, libs)
  {
    hide JsonBytes, Put, Drop;
    NullLength();
    var digest := libs.sha256(JsonBytes(Null));
    var name, bytes, sha := Field("name", Str(filename)), Field("bytes", Int(4)), Field("sha256", Str(digest));
    var tail := [bytes] + ([sha] + []);
    if fs == [] {
      PutFirst([], name);
      PutFirst([name], name);
      AbsentDrop([], "name");
      PutPast(name, [], bytes);
      PutFirst([], bytes);
      PutPast(name, [bytes], sha);
      PutPast(bytes, [], sha);
      PutFirst([], sha);
      assert [name][1..] == [] && [name] + [] == [name] && [bytes] + [] == [bytes] && [sha] + [] == [sha];
    } else {
      assert fs[1..] == tail && tail[1..] == [sha] + [] == [sha] && ([name] + tail)[1..] == tail && [sha][1..] == [];
      PutFirst(fs, name);
      AbsentDrop(tail, "name");
      PutFirst([name] + tail, name);
      PutPast(name, tail, bytes);
      PutFirst(tail, bytes);
      AbsentDrop([sha], "bytes");
      PutPast(name, tail, sha);
      PutPast(bytes, [sha], sha);
      PutFirst([sha], sha);
      AbsentDrop([], "sha256");
    }
  }

  lemma PutFirst(fs: seq<Field>, f: Field)
    ensures fs == [] ==> Put(fs, f.key, f.value) == [f]
    ensures fs != [] && fs[0].key == f.key ==> Put(fs, f.key, f.value) == [f] + Drop(fs[1..], f.key)
  {
  }

  lemma PutPast(first: Field, fs: seq<Field>, f: Field)
    requires first.key != f.key
    ensures Put([first] + fs, f.key, f.value) == [first] + Put(fs, f.key, f.value)
  {
    assert ([first] + fs)[1..] == fs;
  }

  // The sink once null has been staged as "a" for one device and, where there is a second,
  // as "b" for another, both described by one dictionary.
  function OneStaged(config: Config, m: Metadata, libs: Libraries): Sink {
    Initial(config).(names := {"a"}, store := map[m := NullEntry("a", libs)],
                     groups := [Staged(Device("A"), [NullMember("a", m, libs)])])
  }

  function TwoStaged(config: Config, m: Metadata, libs: Libraries): Sink {
    Initial(config).(names := {"a", "b"}, store := map[m := NullEntry("b", libs)],
                     groups := [Staged(Device("A"), [NullMember("a", m, libs)]),
                                Staged(Device("B"), [NullMember("b", m, libs)])])
  }

  function StageOp(filename: string, device: string, m: Metadata): Op {
    AddOp(filename, Null, Some(device), m, [], NoFault)
  }

  lemma StagesOne(config: Config, m: Metadata, libs: Libraries, env: nat -> Fate)
    requires config.kind == "k"
    ensures Apply(Initial(config), StageOp("a", "A", m), libs, env) == OneStaged(config, m, libs)
  {
    hide JsonBytes, Described, Put, NullEntry, NewMember;
    DescribedAnew([], "", "a", libs);
  }

  lemma StagesTwo(config: Config, m: Metadata, libs: Libraries, env: nat -> Fate)
    requires config.kind == "k"
    ensures Apply(OneStaged(config, m, libs), StageOp("b", "B", m), libs, env) == TwoStaged(config, m, libs)
  {
    hide JsonBytes, Described, Put, NullEntry, NewMember;
    DescribedAnew(NullEntry("a", libs), "a", "b", libs);
    StagesApart(Staged(Device("A"), [NullMember("a", m, libs)]), Device("B"), NullMember("b", m, libs));
  }

  lemma StagesApart(g: Staged, key: Key, x: Member)
    requires g.key != key
    ensures Stage([g], key, x) == [g, Staged(key, [x])]
  {
    assert [g][1..] == [];
  }

  lemma StagedInOrder(config: Config, m: Metadata, libs: Libraries)
    requires config.kind == "k"
    ensures Orderly(OneStaged(config, m, libs), libs) && Orderly(TwoStaged(config, m, libs), libs)
  {
    hide Orderly, Add;
    var env: nat -> Fate := _ => Attaches;
    InitialOrder(config, libs);
    StagesOne(config, m, libs, env);
    StagesTwo(config, m, libs, env);
    AddOrders(Initial(config), "a", Null, Some("A"), m, [], NoFault, libs);
    AddOrders(OneStaged(config, m, libs), "b", Null, Some("B"), m, [], NoFault, libs);
  }

  // ----- what the plan weighs ------------------------------------------------------------------

  // Both groups are kept.
  lemma KeptTwo(x: Member, y: Member, groups: seq<Staged>, maxBytes: nat)
    requires groups == [Staged(Device("A"), [x]), Staged(Device("B"), [y])]
    requires Size(MemberInfos([x])) <= maxBytes && Size(MemberInfos([y])) <= maxBytes
    ensures Kept(groups, {}, maxBytes) == [[x], [y]] && Dropped(groups, {}, maxBytes) == []
  {
    hide Size, MemberInfos;
    KeptOne(x, groups[..1], maxBytes);
    LiveOne(y);
    assert groups[..1] == [Staged(Device("A"), [x])];
  }

  lemma KeptOne(x: Member, groups: seq<Staged>, maxBytes: nat)
    requires groups == [Staged(Device("A"), [x])] && Size(MemberInfos([x])) <= maxBytes
    ensures Kept(groups, {}, maxBytes) == [[x]] && Dropped(groups, {}, maxBytes) == []
  {
    hide Size, MemberInfos;
    LiveOne(x);
    assert groups[..0] == [];
  }

  lemma LiveOne(x: Member)
    ensures Live([x], {}) == [x]
  {
    assert [x][..0] == [];
  }

  // Two groups behind a lead that leaves room for one of them.
  lemma PackTwo(x: Member, y: Member, lead: ZipInfo, maxBytes: nat)
    ensures var parts := Pack([[x], [y]], [lead], maxBytes);
      && (Size([lead, x.info, y.info]) > maxBytes && Size([lead, x.info]) <= maxBytes ==> parts == [[x], [y]])
      && (Size([lead, x.info]) > maxBytes ==> |parts| > 1)
  {
    hide Size;
    var groups := [[x], [y]];
    assert groups[..1] == [[x]] && groups[..1][..0] == [] && groups[..0] == [];
    assert MemberInfos([x]) == [x.info] && MemberInfos([y]) == [y.info];
    assert [lead] + [x.info] == [lead, x.info] && [lead, x.info] + [y.info] == [lead, x.info, y.info];
    var one := AddGroup(Filling([[]], [lead]), [x], maxBytes);
    assert Fill([], [lead], maxBytes) == Filling([[]], [lead]);
    assert Fill([[x]], [lead], maxBytes) == one;
    assert Fill(groups, [lead], maxBytes) == AddGroup(one, [y], maxBytes);
    if Size([lead, x.info]) <= maxBytes {
      assert one.parts == [[x]] by { assert [[x]][..0] == [] && [] + [x] == [x]; }
      assert [[x]] + [[y]] == [[x], [y]];
    }
  }

  // One group, alone and behind a lead it does not fit with.
  lemma PackOne(x: Member, lead: ZipInfo, maxBytes: nat)
    ensures Size([lead, x.info]) > maxBytes ==> |Pack([[x]], [lead], maxBytes)| > 1
    ensures Size([x.info]) <= maxBytes ==> Pack([[x]], [], maxBytes) == [[x]]
  {
    hide Size;
    assert [[x]][..0] == [] && MemberInfos([x]) == [x.info];
    assert [lead] + [x.info] == [lead, x.info] && [] + [x.info] == [x.info] && [] + [x] == [x];
    assert Fill([[x]], [lead], maxBytes) == AddGroup(Filling([[]], [lead]), [x], maxBytes);
    assert Fill([[x]], [], maxBytes) == AddGroup(Filling([[]], []), [x], maxBytes);
  }

  // The manifest as it reads, flagged, and as reserved for.
  lemma ManifestInfos(filename: string, libs: Libraries)
    requires |filename| == 1 && IsPlain(filename) && Usual(libs)
    ensures var manifest, digest := Dict(NullEntry(filename, libs)), libs.sha256(JsonBytes(Null));
      var info := CompressedInfo("k/m", JsonBytes(manifest), libs);
      && info == ZipInfo("k/m", 108, EntryStream(filename, libs)) && EntryStream(filename, libs) <= DeflateBound(108)
      && FlaggedStream(filename, libs) <= DeflateBound(131)
      && |JsonBytes(Dict(Put(NullEntry(filename, libs), FLAG, Bool(true))))| == 131
      && BoundInfo("k/m", manifest) == ZipInfo("k/m", 132, 139)
      && Tidy(manifest) && IsSmall(info) && IsSmall(BoundInfo("k/m", manifest))
  {
    hide JsonBytes, Put, Drop, Entry4, IsPlain;
    var digest := libs.sha256(JsonBytes(Null));
    EntryLength(filename, digest);
    FlaggedLength(filename, digest, false);
    FlaggedLength(filename, digest, true);
    ReservedEntry(filename, digest);
    EntryIsTidy(filename, digest);
    PathIsAscii("m");
  }

  lemma ReservedEntry(filename: string, digest: string)
    ensures ReserveFlags(Dict(Entry4(filename, digest))) == Dict(Put(Entry4(filename, digest), FLAG, Bool(false)))
  {
    hide Put;
    NoFlagYet(filename, digest);
    var name, bytes, sha := Field("name", Str(filename)), Field("bytes", Int(4)), Field("sha256", Str(digest));
    ReservedFirst(sha, []);
    ReservedFirst(bytes, [sha] + []);
    ReservedFirst(name, [bytes] + ([sha] + []));
  }

  lemma ReservedFirst(f: Field, fs: seq<Field>)
    requires ReserveFlags(f.value) == f.value && ReserveFields(fs) == fs
    ensures ReserveFields([f] + fs) == [f] + fs
  {
    assert ([f] + fs)[1..] == fs;
  }

  lemma EntryIsTidy(filename: string, digest: string)
    ensures Tidy(Dict(Entry4(filename, digest)))
  {
    NoFlagYet(filename, digest);
    assert DistinctKeys(Entry4(filename, digest));
    var name, bytes, sha := Field("name", Str(filename)), Field("bytes", Int(4)), Field("sha256", Str(digest));
    TidyFirst(sha, []);
    TidyFirst(bytes, [sha] + []);
    TidyFirst(name, [bytes] + ([sha] + []));
  }

  lemma TidyFirst(f: Field, fs: seq<Field>)
    requires Tidy(f.value) && TidyFields(fs)
    ensures TidyFields([f] + fs)
  {
    assert ([f] + fs)[1..] == fs;
  }

  // ----- a run that ends with a false manifest -----------------------------------------------

  // Part 1 takes one artifact beside the manifest's bound; part 2 the other.
  function SharingConfig(libs: Libraries): Config { Config("k", "z", 325 + NullStream(libs)) }

  function Sharing(m: Metadata, libs: Libraries): Sink { TwoStaged(SharingConfig(libs), m, libs) }

  lemma SharingKept(m: Metadata, libs: Libraries)
    requires Usual(libs)
    ensures var s := Sharing(m, libs);
      && PlanningGroups(s) == [[NullMember("a", m, libs)], [NullMember("b", m, libs)]]
      && PlanningStore(s, map[]) == map[m := NullEntry("b", libs)]
  {
    hide Size, JsonBytes, NewMember, NullEntry, Kept, Dropped, NullStream, Usual;
    var x, y := NullMember("a", m, libs), NullMember("b", m, libs);
    NullIsSmall("a", m, libs);
    NullIsSmall("b", m, libs);
    SmallSizes(x.info, x.info, x.info);
    SmallSizes(y.info, y.info, y.info);
    assert MemberInfos([x]) == [x.info] && MemberInfos([y]) == [y.info];
    KeptTwo(x, y, Sharing(m, libs).groups, SharingConfig(libs).maxBytes);
  }

  // The streams of the manifest and of an artifact make up for what is reserved.
  lemma SharingPlans(m: Metadata, libs: Libraries)
    requires Usual(libs) && EntryStream("b", libs) + NullStream(libs) > 57
    ensures var s := Sharing(m, libs);
      && PlansWithRoom(s, "m", Shared(m), map[], libs)
      && Planned(s, "m", Shared(m), map[], libs).plan.value.parts
         == [[NullMember("a", m, libs)], [NullMember("b", m, libs)]]
  {
    hide Size, JsonBytes, NewMember, NullEntry, Kept, AfterPlan, Pack, Tidy, BoundInfo, NullStream, EntryStream, Usual;
    var s, max := Sharing(m, libs), SharingConfig(libs).maxBytes;
    var x, y := NullMember("a", m, libs), NullMember("b", m, libs);
    var manifest := Dict(NullEntry("b", libs));
    var info, bound := CompressedInfo("k/m", JsonBytes(manifest), libs), BoundInfo("k/m", manifest);
    SharingKept(m, libs);
    assert ManifestPath(s.config, "m") == "k/m";
    ManifestInfos("b", libs);
    NullIsSmall("a", m, libs);
    NullIsSmall("b", m, libs);
    SmallSizes(info, x.info, y.info);
    SmallSizes(bound, x.info, y.info);
    PackTwo(x, y, info, max);
    PackTwo(x, y, bound, max);
  }

  lemma SharedIsNotApart(groups: seq<Staged>, x: Member, y: Member)
    requires x.metadata == y.metadata
    ensures !Apart(groups, [[x], [y]])
  {
    var parts := [[x], [y]];
    assert x.metadata in Metas(parts[0]) && y.metadata in Metas(parts[1]);
    assert !(Metas(parts[0]) !! Metas(parts[1]));
  }

  // Two devices describe their artifacts in one dictionary, which is also the manifest. The
  // callback refuses one of the two parts: the dictionary cannot tell which.
  lemma SharedRunMisleads(m: Metadata, libs: Libraries) returns (t: Trace, env: nat -> Fate)
    requires Usual(libs) && EntryStream("b", libs) + NullStream(libs) > 57
    ensures t.ops == [StageOp("a", "A", m), StageOp("b", "B", m), FinishOp("m", Shared(m), map[])]
    ensures IsRun(t, SharingConfig(libs), libs, env) && Misleads(t.states[3])
  {
    hide Apply, Misleads, PlansWithRoom, Orderly, Bounded, Planned, NewMember, Apart, AlwaysFits, NullStream;
    hide EntryStream, NullEntry;
    var config, s := SharingConfig(libs), Sharing(m, libs);
    StagedInOrder(config, m, libs);
    SharingPlans(m, libs);
    NullIsSmall("a", m, libs);
    NullIsSmall("b", m, libs);
    SharedIsNotApart(s.groups, NullMember("a", m, libs), NullMember("b", m, libs));
    RoomAlwaysFits(s, "m", Shared(m), map[], libs);
    StillOpen(s, "m", Shared(m), libs);
    env := SharedAcrossPartsMisleads(s, "m", Shared(m), map[], libs);
    t := RunOf(config, [StageOp("a", "A", m), StageOp("b", "B", m), FinishOp("m", Shared(m), map[])], libs, env);
    assert StepAt(t, 0, libs, env) && StepAt(t, 1, libs, env) && StepAt(t, 2, libs, env);
    StagesOne(config, m, libs, env);
    StagesTwo(config, m, libs, env);
    FinishApplies(s, t.ops[2], libs, env);
  }

  lemma StillOpen(s: Sink, manifestFilename: string, doc: Doc, libs: Libraries)
    requires s.plan.None? && !s.closed
    ensures PlansApart(s, manifestFilename, doc, map[], libs)
      <==> Apart(s.groups, Planned(s, manifestFilename, doc, map[], libs).plan.value.parts)
  {
    hide Apart, Prepare;
  }

  lemma FinishApplies(s: Sink, op: Op, libs: Libraries, env: nat -> Fate)
    requires op.FinishOp?
    ensures Apply(s, op, libs, env) == Finish(s, op.manifestFilename, op.doc, op.known, libs, env).0
  {
    hide Finish;
  }

  // ----- a run that leaves its manifest out -----------------------------------------------------

  // Just the manifest as first planned, and nothing beside it.
  function IsolatingConfig(libs: Libraries): Config { Config("k", "z", 104 + EntryStream("a", libs)) }

  function Isolating(m: Metadata, libs: Libraries): Sink { OneStaged(IsolatingConfig(libs), m, libs) }

  // A short artifact, and a flag that its description does not carry for nothing.
  ghost predicate Flaggable(libs: Libraries) {
    Usual(libs) && NullStream(libs) <= EntryStream("a", libs) < FlaggedStream("a", libs)
  }

  lemma IsolatingKept(m: Metadata, libs: Libraries)
    requires Flaggable(libs)
    ensures var s := Isolating(m, libs);
      && PlanningGroups(s) == [[NullMember("a", m, libs)]] && PlanningStore(s, map[]) == map[m := NullEntry("a", libs)]
      && AfterPlan(Begun(s, map[])) == Begun(s, map[])
  {
    hide Size, JsonBytes, NewMember, NullEntry, Kept, Dropped, NullStream, EntryStream, Usual;
    var x := NullMember("a", m, libs);
    NullIsSmall("a", m, libs);
    SmallSizes(x.info, x.info, x.info);
    assert MemberInfos([x]) == [x.info];
    KeptOne(x, Isolating(m, libs).groups, IsolatingConfig(libs).maxBytes);
    assert GroupWarnings([]) == [];
  }

  // The plan: part 1 for the manifest alone, part 2 for the artifact.
  lemma IsolatingPlans(m: Metadata, libs: Libraries)
    requires Flaggable(libs)
    ensures var s := Isolating(m, libs);
      && IsolatesManifest(s, "m", Shared(m), map[], libs) && Tidy(Resolve(Shared(m), PlanningStore(s, map[])))
      && Planned(s, "m", Shared(m), map[], libs)
         == Begun(s, map[]).(plan := Some(Plan([[], [NullMember("a", m, libs)]], Some("k/m"), "m")))
  {
    hide Size, JsonBytes, NewMember, NullEntry, Kept, Dropped, Pack, Tidy, BoundInfo, AfterPlan;
    hide NullStream, EntryStream, Usual;
    var s, max := Isolating(m, libs), IsolatingConfig(libs).maxBytes;
    var x := NullMember("a", m, libs);
    var manifest := Dict(NullEntry("a", libs));
    var info, bound := CompressedInfo("k/m", JsonBytes(manifest), libs), BoundInfo("k/m", manifest);
    IsolatingKept(m, libs);
    assert ManifestPath(s.config, "m") == "k/m";
    ManifestInfos("a", libs);
    NullIsSmall("a", m, libs);
    SmallSizes(info, x.info, x.info);
    SmallSizes(bound, x.info, x.info);
    SmallSizes(x.info, x.info, x.info);
    PackOne(x, info, max);
    assert [[]] + [[x]] == [[], [x]];
  }

  // With part 2 refused, the flag that puts on the manifest passes the cap.
  lemma FlaggedNoLongerFits(p: Sink, m: Metadata, x: Member, libs: Libraries)
    requires Flaggable(libs) && x.metadata == m && p.store == map[m := NullEntry("a", libs)]
    requires p.config == IsolatingConfig(libs)
    ensures Outgrown(p, Plan([[], [x]], Some("k/m"), "m"), Shared(m), {1}, libs)
  {
    hide JsonBytes, Size, Put, Drop, NullStream, EntryStream, FlaggedStream, Entry4, Usual;
    var parts := [[], [x]];
    var manifest := Put(NullEntry("a", libs), FLAG, Bool(true));
    var marked := Marked(Cleared(p.store, [x]), [x]);
    NoFlagYet("a", libs.sha256(JsonBytes(Null)));
    ManifestInfos("a", libs);
    assert x.metadata in Metas([x]);
    assert AfterAnswers(p.store, parts, {1}, 0) == p.store && AfterAnswers(p.store, parts, {1}, 1) == marked;
    assert Cleared(marked, []) == marked;
    assert Resolve(Shared(m), marked) == Dict(manifest);
    FlaggedInfo(libs);
  }

  lemma FlaggedInfo(libs: Libraries)
    requires Flaggable(libs)
    ensures var manifest := Dict(Put(NullEntry("a", libs), FLAG, Bool(true)));
      !FitsNow("k/m", manifest, [], IsolatingConfig(libs).maxBytes, libs)
  {
    hide JsonBytes, Size, Put, NullEntry, NullStream, EntryStream;
    var manifest := Dict(Put(NullEntry("a", libs), FLAG, Bool(true)));
    ManifestInfos("a", libs);
    PathIsAscii("m");
    var info := CompressedInfo("k/m", JsonBytes(manifest), libs);
    SmallSizes(info, info, info);
    assert [info] + MemberInfos([]) == [info];
  }

  lemma IsolatedIsApart(groups: seq<Staged>, x: Member)
    requires AllStaged(groups) == [x]
    ensures Apart(groups, [[], [x]])
  {
    hide AllStaged;
    var parts := [[], [x]];
    assert Metas(parts[0]) == {};
    assert InParts(parts, x) by { assert x in parts[1]; }
  }

  // The manifest's own part has room for it unflagged, and none for the flag that a refused
  // part 2 puts on it: it is left out, with a warning.
  lemma IsolatedRunOutgrows(m: Metadata, libs: Libraries) returns (t: Trace, env: nat -> Fate)
    requires Flaggable(libs)
    ensures t.ops == [StageOp("a", "A", m), FinishOp("m", Shared(m), map[])]
    ensures ApartRun(t, IsolatingConfig(libs), libs, env) && ComesUnflagged(t.ops[0])
    ensures IsolatesManifest(t.states[1], "m", Shared(m), map[], libs)
    ensures ManifestOutgrew("m") in t.states[2].warnings
  {
    hide Apply, IsolatesManifest, Orderly, Planned, NewMember, Apart, PlansApart, Finish, NullEntry, Flaggable;
    var config, s := IsolatingConfig(libs), Isolating(m, libs);
    env := Answering({1});
    StagedInOrder(config, m, libs);
    IsolatingPlans(m, libs);
    IsolatingOutgrows(m, libs);
    t := RunOf(config, [StageOp("a", "A", m), FinishOp("m", Shared(m), map[])], libs, env);
    assert StepAt(t, 0, libs, env) && StepAt(t, 1, libs, env);
    StagesOne(config, m, libs, env);
    FinishApplies(s, t.ops[1], libs, env);
    IsolatingApart(m, libs);
    assert ApartAt(t, 0, libs) && ApartAt(t, 1, libs);
  }

  lemma IsolatingOutgrows(m: Metadata, libs: Libraries)
    requires Flaggable(libs)
    ensures Warns(Isolating(m, libs), "m", Shared(m), map[], libs, Answering({1}))
  {
    hide Prepare, NewMember, Orderly, Tidy, IsolatesManifest, NullEntry, Outgrown, Warns, Flaggable, IsolatingConfig;
    var s, x := Isolating(m, libs), NullMember("a", m, libs);
    NullHasMetadata(m, libs);
    StagedInOrder(IsolatingConfig(libs), m, libs);
    IsolatingPlans(m, libs);
    assert map[] + s.store == s.store;
    FlaggedNoLongerFits(Planned(s, "m", Shared(m), map[], libs), m, x, libs);
    OutgrownWarns(s, "m", Shared(m), map[], libs, {1});
  }

  lemma NullHasMetadata(m: Metadata, libs: Libraries)
    ensures NullMember("a", m, libs).metadata == m
    ensures IsolatingConfig(libs).kind == "k"
  {
  }

  lemma IsolatingApart(m: Metadata, libs: Libraries)
    requires Flaggable(libs)
    ensures PlansApart(Isolating(m, libs), "m", Shared(m), map[], libs)
  {
    hide Prepare, NewMember, Apart, Tidy, IsolatesManifest, NullEntry, Flaggable;
    var s := Isolating(m, libs);
    IsolatingPlans(m, libs);
    assert s.groups[1..] == [];
    assert AllStaged(s.groups) == [NullMember("a", m, libs)] + AllStaged([]);
    IsolatedIsApart(s.groups, NullMember("a", m, libs));
  }
}
