/** The warning of a manifest that outgrew its part: only a manifest that was isolated
    without a reservation can cause it. */
module SinkOutgrown {
  import opened Basics
  import opened Json
  import opened ZipLayout
  import opened Manifest
  import opened Packing
  import opened SinkModel
  import opened SinkInvariants
  import opened SinkOrder
  import opened SinkSafety
  import opened SinkReservation
  import opened SinkAnswers

  // ----- metadata comes in unflagged ---------------------------------------------------------

  predicate Unflagged(fs: seq<Field>) { Find(fs, FLAG).None? }

  predicate ComesUnflagged(op: Op) { op.AddOp? ==> Unflagged(op.given) }

  // Until a plan is made, only what failed is flagged.
  ghost predicate FailedOnlyFlagged(s: Sink) {
    s.plan.None? && !s.closed ==> forall m :: m in s.store && m !in s.addFailed ==> Unflagged(s.store[m])
  }

  lemma DescribedUnflagged(fs: seq<Field>, filename: string, data: seq<byte>, libs: Libraries)
    requires Unflagged(fs)
    ensures Unflagged(Described(fs, filename, data, libs)) && Unflagged(Put(fs, "name", Str(filename)))
  {
    DescribedFacts(fs, filename, data, libs);
  }

  lemma UnflaggedAfterAdd(s: Sink, op: Op, libs: Libraries, env: nat -> Fate)
    requires op.AddOp? && FailedOnlyFlagged(s) && ComesUnflagged(op)
    ensures FailedOnlyFlagged(Apply(s, op, libs, env))
  {
    hide Described, Stage, JsonBytes;
    if AddRefusal(s, op.filename).None? && s.plan.None? && op.metadata !in s.addFailed {
      var fields := if op.metadata in s.store then s.store[op.metadata] else op.given;
      DescribedUnflagged(fields, op.filename, JsonBytes(op.payload), libs);
      DescribedUnflagged(Put(fields, "name", Str(op.filename)), op.filename, JsonBytes(op.payload), libs);
    }
  }

  lemma UnflaggedAfterFinish(s: Sink, op: Op, libs: Libraries, env: nat -> Fate)
    requires Orderly(s, libs) && op.FinishOp? && FailedOnlyFlagged(s)
    ensures FailedOnlyFlagged(Apply(s, op, libs, env))
  {
    hide PlanOrder, StagedOk, NamedOnce, FinishFrom, AfterPlan, PlanFor, Unflagged;
    if !s.finished && !s.closed {
      var begun := Begun(s, op.known);
      BegunOrders(s, op.known, libs);
      if s.plan.None? {
        PrepareOrders(begun, op.manifestFilename, op.doc, libs);
        LoopKeepsStaging(Prepare(begun, op.manifestFilename, op.doc, libs), op.doc, libs, env);
      } else if s.plan.value.manifestFilename == op.manifestFilename {
        LoopKeepsStaging(begun, op.doc, libs, env);
      }
    }
  }

  lemma {:induction false} UnflaggedRun(t: Trace, config: Config, libs: Libraries, env: nat -> Fate, k: nat)
    requires IsRun(t, config, libs, env) && k < |t.states|
    requires forall i: nat :: i < k ==> ComesUnflagged(t.ops[i])
    ensures FailedOnlyFlagged(t.states[k])
  {
    hide Orderly, Apply, FailedOnlyFlagged, ComesUnflagged;
    if k == 0 {
      NothingFlagged(config);
    } else {
      UnflaggedRun(t, config, libs, env, k - 1);
      RunOrderly(t, config, libs, env, k - 1);
      var s, op := t.states[k - 1], t.ops[k - 1];
      assert StepAt(t, k - 1, libs, env);
      assert ComesUnflagged(op);
      match op
      case AddOp(_, _, _, _, _, _) => UnflaggedAfterAdd(s, op, libs, env);
      case FinishOp(_, _, _) => UnflaggedAfterFinish(s, op, libs, env);
      case CloseOp => UnflaggedAfterClose(s, libs, env);
    }
  }

  lemma NothingFlagged(config: Config)
    ensures FailedOnlyFlagged(Initial(config))
  {
  }

  lemma UnflaggedAfterClose(s: Sink, libs: Libraries, env: nat -> Fate)
    ensures FailedOnlyFlagged(Apply(s, CloseOp, libs, env))
  {
  }

  // ----- a plan of one part, or without a manifest ---------------------------------------------

  // With the part's flags cleared, the manifest reads as it did when the plan was made.
  ghost predicate ReadsAsPlanned(store: Store, members: seq<Member>, doc: Doc, before: Store) {
    forall m :: m in Shareds(doc) ==> Content(Cleared(store, members), m) == Content(before, m)
  }

  // The plan has no manifest to attach, or one part that fits it as it read then.
  predicate RoomAsPlanned(plan: Plan, doc: Doc, before: Store, maxBytes: nat, libs: Libraries) {
    plan.manifestName.Some? ==>
      |plan.parts| == 1 && FitsNow(plan.manifestName.value, Resolve(doc, before), plan.parts[0], maxBytes, libs)
  }

  // Until the one part has its answer, the manifest still reads as planned.
  ghost predicate StillAsPlanned(s: Sink, plan: Plan, doc: Doc, before: Store) {
    plan.manifestName.Some? && |plan.parts| == 1 && !s.closed && NameAt(s, plan, 0) !in s.attempted ==>
      ReadsAsPlanned(s.store, plan.parts[0], doc, before)
  }

  // All a silent turn needs, and keeps.
  ghost predicate Silent(s: Sink, doc: Doc, before: Store, libs: Libraries) {
    && s.plan.Some? && Shareds(doc) <= s.store.Keys
    && RoomAsPlanned(s.plan.value, doc, before, s.config.maxBytes, libs)
    && StillAsPlanned(s, s.plan.value, doc, before)
  }

  // What a step leaves alone.
  ghost predicate Hushed(s: Sink, u: Sink) {
    u.plan == s.plan && u.config == s.config && u.warnings == s.warnings && u.store.Keys == s.store.Keys
  }

  lemma SameKeys(store: Store, members: seq<Member>)
    ensures Cleared(store, members).Keys == store.Keys && Marked(store, members).Keys == store.Keys
  {
  }

  // An attempt that is not answered leaves the metadata alone.
  lemma AttemptHushes(s: Sink, event: Event)
    ensures var (u, going) := Attempt(s, event);
      && Hushed(s, u) && u.closed == s.closed && s.attempted <= u.attempted
      && (if going then event.name in u.attempted else u.store == s.store)
  {
    hide Marked, Cleared;
    SameKeys(s.store, event.members);
  }

  lemma PendingHushes(s: Sink, doc: Doc, index: nat, name: string, members: seq<Member>, manifestName: Option<string>,
                      manifestFilename: string, libs: Libraries, fate: Fate)
    requires manifestName.Some? ==>
      FitsNow(manifestName.value, Resolve(doc, Cleared(s.store, members)), members, s.config.maxBytes, libs)
    ensures var (u, going) :=
        AttemptPending(s, doc, index, name, members, manifestName, manifestFilename, libs, fate);
      && Hushed(s, u) && u.closed == s.closed && s.attempted <= u.attempted
      && (name in u.attempted || u.store == Cleared(s.store, members))
  {
    hide Cleared, FitsNow, Resolve, Attempt, BuildPart, ManifestText, OutcomeOf;
    var pending := s.(store := Cleared(s.store, members));
    SameKeys(s.store, members);
    if manifestName.Some? {
      AttemptHushes(pending, EventOf(pending, index, name, Some(doc), manifestName.value, members, libs, fate));
    } else if members != [] {
      AttemptHushes(pending, EventOf(pending, index, name, None, "", members, libs, fate));
    }
  }

  lemma StaysAsPlanned(s: Sink, u: Sink, plan: Plan, doc: Doc, before: Store)
    requires StillAsPlanned(s, plan, doc, before) && u.config == s.config && s.attempted <= u.attempted
    requires |plan.parts| > 0
    requires u.closed || NameAt(s, plan, 0) in u.attempted
             || (!s.closed && u.store == Cleared(s.store, plan.parts[0]))
    ensures StillAsPlanned(u, plan, doc, before)
  {
    hide PartFilename, Cleared, Shareds;
    ClearedTwice(s.store, plan.parts[0]);
  }

  // A part without the manifest has nothing to warn of; the one part has room.
  lemma SilentTurn(s: Sink, plan: Plan, doc: Doc, i: nat, before: Store, libs: Libraries, env: nat -> Fate)
    requires Silent(s, doc, before, libs) && s.plan == Some(plan) && !s.closed && i < |plan.parts|
    ensures var u := FinishPart(s, plan, doc, i, libs, env).0;
      Hushed(s, u) && Silent(u, doc, before, libs) && !u.closed
  {
    hide PartFilename, FitsNow, Resolve, Shareds, AttemptPending, StillAsPlanned, ReadsAsPlanned, Cleared, Marked;
    var members, name := plan.parts[i], NameAt(s, plan, i);
    var u := FinishPart(s, plan, doc, i, libs, env).0;
    SameKeys(s.store, members);
    if name !in s.downloads && name !in s.attempted {
      if i == 0 && plan.manifestName.Some? { ReadsSame(s, plan, doc, before); }
      PendingHushes(s, doc, i, name, members, if i == 0 then plan.manifestName else None, plan.manifestFilename,
                    libs, env(|s.events|));
    }
    if plan.manifestName.Some? {
      StaysAsPlanned(s, u, plan, doc, before);
    } else {
      NothingToRead(u, plan, doc, before);
    }
  }

  lemma NothingToRead(s: Sink, plan: Plan, doc: Doc, before: Store)
    requires plan.manifestName.None?
    ensures StillAsPlanned(s, plan, doc, before)
  {
  }

  lemma ReadsSame(s: Sink, plan: Plan, doc: Doc, before: Store)
    requires StillAsPlanned(s, plan, doc, before) && plan.manifestName.Some? && |plan.parts| == 1
    requires !s.closed && NameAt(s, plan, 0) !in s.attempted
    ensures Resolve(doc, Cleared(s.store, plan.parts[0])) == Resolve(doc, before)
  {
    hide PartFilename, Cleared, Shareds;
    SameContent(doc, Cleared(s.store, plan.parts[0]), before);
  }

  lemma {:induction false} SilentLoop(s: Sink, plan: Plan, doc: Doc, k: nat, before: Store, libs: Libraries,
                                      env: nat -> Fate)
    requires k <= |plan.parts| && Silent(s, doc, before, libs) && s.plan == Some(plan) && !s.closed
    ensures var u := FinishFrom(s, plan, doc, k, libs, env).0; Hushed(s, u) && Silent(u, doc, before, libs)
    decreases |plan.parts| - k
  {
    hide FinishPart, Silent;
    if k == |plan.parts| {
      SilentOnceClosed(s, s.(finished := true, closed := true), doc, before, libs);
    } else {
      var i := Position(k, |plan.parts|);
      var (u, going) := FinishPart(s, plan, doc, i, libs, env);
      SilentTurn(s, plan, doc, i, before, libs, env);
      if going { SilentLoop(u, plan, doc, k + 1, before, libs, env); }
    }
  }

  lemma SilentOnceClosed(s: Sink, u: Sink, doc: Doc, before: Store, libs: Libraries)
    requires Silent(s, doc, before, libs) && Hushed(s, u) && u.closed
    ensures Silent(u, doc, before, libs)
  {
    hide PartFilename, FitsNow, Resolve, Shareds, Cleared;
  }

  lemma SilentBegun(s: Sink, known: Store, doc: Doc, before: Store, libs: Libraries)
    requires Silent(s, doc, before, libs)
    ensures Silent(Begun(s, known), doc, before, libs)
  {
    hide PartFilename, FitsNow, Resolve, Shareds, ReadsAsPlanned;
    var u, plan := Begun(s, known), s.plan.value;
    assert NameAt(u, plan, 0) == NameAt(s, plan, 0);
    if |plan.parts| == 1 && ReadsAsPlanned(s.store, plan.parts[0], doc, before) {
      ReadsTheSame(s.store, known + s.store, plan.parts[0], doc, before);
    }
  }

  lemma ReadsTheSame(a: Store, b: Store, members: seq<Member>, doc: Doc, before: Store)
    requires ReadsAsPlanned(a, members, doc, before) && Shareds(doc) <= a.Keys
    requires forall m :: m in a ==> m in b && b[m] == a[m]
    ensures ReadsAsPlanned(b, members, doc, before)
  {
    forall m | m in Shareds(doc) ensures Content(Cleared(b, members), m) == Content(before, m) {
      assert Content(Cleared(a, members), m) == Content(before, m);
    }
  }

  // ----- every later operation --------------------------------------------------------------------

  lemma SilentOp(s: Sink, op: Op, doc: Doc, before: Store, libs: Libraries, env: nat -> Fate)
    requires Orderly(s, libs) && Silent(s, doc, before, libs)
    requires op.FinishOp? ==> op.doc == doc
    ensures var u := Apply(s, op, libs, env); u.warnings == s.warnings && Silent(u, doc, before, libs)
  {
    hide StagedOk, PlanOrder, NamedOnce, Silent, FinishFrom, Live, AllStaged, Marked;
    assert s.plan.Some? by { SilentHasPlan(s, doc, before, libs); }
    match op
    case AddOp(filename, _, _, _, _, _) => assert AddRefusal(s, filename).Some?;
    case FinishOp(manifestFilename, _, known) =>
      if !s.finished && !s.closed {
        var begun := Begun(s, known);
        SilentBegun(s, known, doc, before, libs);
        if s.plan.value.manifestFilename == manifestFilename {
          SilentLoop(begun, s.plan.value, doc, 0, before, libs, env);
        }
      }
    case CloseOp =>
      SameKeys(s.store, Live(AllStaged(s.groups), s.confirmed));
      SilentOnceClosed(s, Close(s), doc, before, libs);
  }

  lemma SilentHasPlan(s: Sink, doc: Doc, before: Store, libs: Libraries)
    requires Silent(s, doc, before, libs)
    ensures s.plan.Some?
  {
  }

  lemma {:induction false} SilentOps(t: Trace, config: Config, j: nat, k: nat, doc: Doc, before: Store,
                                     libs: Libraries, env: nat -> Fate)
    requires IsRun(t, config, libs, env) && j <= k < |t.states| && Silent(t.states[j], doc, before, libs)
    requires forall i: nat :: j <= i < k && t.ops[i].FinishOp? ==> t.ops[i].doc == doc
    ensures t.states[k].warnings == t.states[j].warnings && Silent(t.states[k], doc, before, libs)
    decreases k
  {
    hide Orderly, Silent, Apply;
    if j < k {
      SilentOps(t, config, j, k - 1, doc, before, libs, env);
      RunOrderly(t, config, libs, env, k - 1);
      assert StepAt(t, k - 1, libs, env);
      SilentOp(t.states[k - 1], t.ops[k - 1], doc, before, libs, env);
    }
  }

  // ----- the plan, as it is made ------------------------------------------------------------------

  // No artifact is both kept and dropped.
  lemma {:induction false} KeptAndDropped(groups: seq<Staged>, failed: set<Metadata>, maxBytes: nat, x: Member)
    ensures multiset(Flatten(Kept(groups, failed, maxBytes)))[x]
          + multiset(Flatten(Dropped(groups, failed, maxBytes)))[x]
         <= multiset(AllStaged(groups))[x]
  {
    hide Live, Size;
    if groups != [] {
      var n := |groups| - 1;
      var kept, dropped := Kept(groups[..n], failed, maxBytes), Dropped(groups[..n], failed, maxBytes);
      var live := Live(groups[n].members, failed);
      KeptAndDropped(groups[..n], failed, maxBytes, x);
      LiveAtMost(groups[n].members, failed, x);
      AllStagedSnoc(groups[..n], groups[n]);
      assert groups == groups[..n] + [groups[n]];
      FlattenSnoc(kept, live);
      FlattenSnoc(dropped, live);
    }
  }

  lemma {:induction false} DroppedIsStaged(groups: seq<Staged>, failed: set<Metadata>, maxBytes: nat, x: Member)
    requires x in Flatten(Dropped(groups, failed, maxBytes))
    ensures x in AllStaged(groups)
  {
    KeptAndDropped(groups, failed, maxBytes, x);
    assert x in multiset(Flatten(Dropped(groups, failed, maxBytes)));
    assert x in multiset(AllStaged(groups));
  }

  // The object of a planned artifact describes none that was dropped.
  lemma PlannedNotDropped(s: Sink, parts: seq<seq<Member>>, i: nat, m: Metadata)
    requires NamedOnce(s) && Apart(s.groups, parts) && i < |parts| && m in Metas(parts[i])
    requires forall x :: InParts(parts, x) <==> x in Flatten(PlanningGroups(s))
    ensures m !in Metas(Flatten(Dropped(s.groups, s.addFailed, s.config.maxBytes)))
  {
    hide Kept, Dropped, AllStaged, InParts, Separate;
    var dropped := Flatten(Dropped(s.groups, s.addFailed, s.config.maxBytes));
    forall y | y in dropped ensures y.metadata != m {
      DroppedIsStaged(s.groups, s.addFailed, s.config.maxBytes, y);
      KeptAndDropped(s.groups, s.addFailed, s.config.maxBytes, y);
      assert y in multiset(dropped);
      assert multiset(Flatten(PlanningGroups(s)))[y] == 0;
      assert !InParts(parts, y);
    }
  }

  ghost predicate StagedUnflagged(s: Sink) {
    forall x :: x in AllStaged(s.groups) && x.metadata in s.store && x.metadata !in s.addFailed ==>
      Unflagged(s.store[x.metadata])
  }

  lemma BegunUnflagged(s: Sink, known: Store, libs: Libraries)
    requires StagedOk(s, libs) && FailedOnlyFlagged(s) && s.plan.None? && !s.closed
    ensures StagedUnflagged(Begun(s, known))
  {
    hide AllStaged, Unflagged;
    forall x | x in AllStaged(s.groups) && x.metadata !in s.addFailed
      ensures x.metadata in s.store && Unflagged(s.store[x.metadata])
    {
    }
  }

  // So the part's flags, cleared before it is built, were never set.
  lemma PlannedUnflagged(s: Sink, p: Sink, parts: seq<seq<Member>>, i: nat, doc: Doc, libs: Libraries)
    requires StagedOk(s, libs) && NamedOnce(s) && StagedUnflagged(s)
    requires Apart(s.groups, parts) && i < |parts|
    requires forall x :: InParts(parts, x) <==> x in Flatten(PlanningGroups(s))
    requires forall x :: x in parts[i] ==> x in AllStaged(s.groups) && x.metadata !in s.addFailed
    requires p.store == AfterPlan(s).store
    ensures ReadsAsPlanned(p.store, parts[i], doc, p.store)
  {
    hide Kept, Dropped, AllStaged, InParts, Apart, NamedOnce, Shareds;
    forall m | m in p.store && m in Metas(parts[i]) ensures Drop(p.store[m], FLAG) == p.store[m] {
      PlannedNotDropped(s, parts, i, m);
      var x: Member :| x in parts[i] && x.metadata == m;
      assert Unflagged(s.store[x.metadata]);
      NoFlag(s.store[m]);
    }
  }

  lemma {:induction false} NoFlag(fs: seq<Field>)
    requires Unflagged(fs)
    ensures Drop(fs, FLAG) == fs
  {
    if fs != [] { NoFlag(fs[1..]); }
  }

  // The manifest fits a part, would split the plan, and its bound fits none: part 1 is left
  // to it alone, without a reservation.
  predicate IsolatesManifest(s: Sink, manifestFilename: string, doc: Doc, known: Store, libs: Libraries) {
    var manifest, name := Resolve(doc, PlanningStore(s, known)), ManifestPath(s.config, manifestFilename);
    var info := CompressedInfo(name, JsonBytes(manifest), libs);
    && Size([info]) <= s.config.maxBytes && |Pack(PlanningGroups(s), [info], s.config.maxBytes)| > 1
    && Size([BoundInfo(name, manifest)]) > s.config.maxBytes
  }

  // One part with the manifest in it, or a manifest no part can hold.
  lemma UnsplitHasRoom(s: Sink, manifestFilename: string, doc: Doc, known: Store, libs: Libraries)
    requires !IsolatesManifest(s, manifestFilename, doc, known, libs)
    requires !SplitWithRoom(PlanningGroups(s), ManifestPath(s.config, manifestFilename),
                            Resolve(doc, PlanningStore(s, known)), s.config.maxBytes, libs)
    ensures var before := PlanningStore(s, known);
      var plan := PlanFor(s.config, PlanningGroups(s), manifestFilename, Resolve(doc, before), libs);
      RoomAsPlanned(plan, doc, before, s.config.maxBytes, libs)
  {
    hide Size, JsonBytes, Resolve, Pack, Kept, BoundInfo, AfterPlan;
    var groups := PlanningGroups(s);
    var manifest, name := Resolve(doc, PlanningStore(s, known)), ManifestPath(s.config, manifestFilename);
    var info := CompressedInfo(name, JsonBytes(manifest), libs);
    if Size([info]) <= s.config.maxBytes {
      KeptFits(s.groups, s.addFailed, s.config.maxBytes);
      PackFits(groups, [info], s.config.maxBytes);
      assert WithinCap(Lead([info], 0) + MemberInfos(Pack(groups, [info], s.config.maxBytes)[0]), s.config.maxBytes);
    }
  }

  // The call that plans, where the manifest is neither isolated nor reserved for, warns of
  // nothing outgrown.
  lemma FirstFinishSilent(s: Sink, manifestFilename: string, doc: Doc, known: Store, libs: Libraries, env: nat -> Fate)
    requires Orderly(s, libs) && FailedOnlyFlagged(s) && s.plan.None? && !s.closed
    requires PlansApart(s, manifestFilename, doc, known, libs) && Shareds(doc) <= known.Keys + s.store.Keys
    requires !IsolatesManifest(s, manifestFilename, doc, known, libs)
    requires !SplitWithRoom(PlanningGroups(s), ManifestPath(s.config, manifestFilename),
                            Resolve(doc, PlanningStore(s, known)), s.config.maxBytes, libs)
    ensures var u := Finish(s, manifestFilename, doc, known, libs, env).0;
      && Silent(u, doc, PlanningStore(s, known), libs)
      && forall w :: w in u.warnings ==> !w.ManifestOutgrew?
  {
    hide Silent, FinishFrom, PlanOrder, StagedOk, NamedOnce, PlansApart, SplitWithRoom, IsolatesManifest,
         FailedOnlyFlagged;
    hide Prepare, AfterPlan;
    var begun := Begun(s, known);
    BegunOrders(s, known, libs);
    PreparedIsSilent(s, manifestFilename, doc, known, libs);
    PreparedWarnings(begun, manifestFilename, doc, libs);
    var p := Prepare(begun, manifestFilename, doc, libs);
    SilentLoop(p, p.plan.value, doc, 0, PlanningStore(s, known), libs, env);
  }

  lemma PreparedWarnings(s: Sink, manifestFilename: string, doc: Doc, libs: Libraries)
    ensures var p := Prepare(s, manifestFilename, doc, libs);
      && p.plan.Some? && p.closed == s.closed
      && forall w :: w in p.warnings && w.ManifestOutgrew? ==> w in s.warnings
  {
    hide Dropped, Resolve, ManifestAttachable, PlanFor, Kept;
  }

  lemma PreparedIsSilent(s: Sink, manifestFilename: string, doc: Doc, known: Store, libs: Libraries)
    requires Orderly(s, libs) && FailedOnlyFlagged(s) && s.plan.None? && !s.closed
    requires PlansApart(s, manifestFilename, doc, known, libs) && Shareds(doc) <= known.Keys + s.store.Keys
    requires !IsolatesManifest(s, manifestFilename, doc, known, libs)
    requires !SplitWithRoom(PlanningGroups(s), ManifestPath(s.config, manifestFilename),
                            Resolve(doc, PlanningStore(s, known)), s.config.maxBytes, libs)
    ensures Silent(Prepare(Begun(s, known), manifestFilename, doc, libs), doc, PlanningStore(s, known), libs)
  {
    hide PlanFor, Resolve, Apart, NamedOnce, StagedOk, PlanOrder, Blank, ManifestAttachable, RoomAsPlanned;
    hide IsolatesManifest;
    hide SplitWithRoom, Kept, Dropped, FailedOnlyFlagged, ReadsAsPlanned, PartFilename;
    var begun := Begun(s, known);
    var p := Prepare(begun, manifestFilename, doc, libs);
    BegunOrders(s, known, libs);
    UnsplitHasRoom(s, manifestFilename, doc, known, libs);
    PlanForSound(begun, p, manifestFilename, Resolve(doc, PlanningStore(s, known)), libs);
    if |p.plan.value.parts| == 1 {
      BegunUnflagged(s, known, libs);
      forall x: Member ensures InParts(p.plan.value.parts, x) <==> x in Flatten(PlanningGroups(begun)) {}
      PlannedUnflagged(begun, p, p.plan.value.parts, 0, doc, libs);
    }
  }

  // Over every run whose artifacts come unflagged, the manifest is found to have outgrown
  // its part only if it was isolated: whatever the callback answers, any other plan keeps
  // room for it. A plan that is not split must share no metadata with what it leaves out.
  lemma OutgrownOnlyWhenIsolated(t: Trace, config: Config, libs: Libraries, env: nat -> Fate, j: nat, k: nat)
    requires Bounded(libs) && IsRun(t, config, libs, env) && j < k < |t.states| && t.ops[j].FinishOp?
    requires forall i: nat :: i < j ==> ComesUnflagged(t.ops[i])
    requires var (s, op) := (t.states[j], t.ops[j]);
      && s.plan.None? && !s.closed && Shareds(op.doc) <= op.known.Keys + s.store.Keys
      && Tidy(Resolve(op.doc, PlanningStore(s, op.known)))
      && !IsolatesManifest(s, op.manifestFilename, op.doc, op.known, libs)
      && (PlansWithRoom(s, op.manifestFilename, op.doc, op.known, libs)
          || PlansApart(s, op.manifestFilename, op.doc, op.known, libs))
    requires forall i: nat :: j <= i < k && t.ops[i].FinishOp? ==> t.ops[i].doc == t.ops[j].doc
    ensures forall w :: w in t.states[k].warnings ==> !w.ManifestOutgrew?
  {
    hide Orderly, Silent, PlansApart, SplitWithRoom, IsolatesManifest, Bounded, Finish, Tidy, FailedOnlyFlagged;
    var s, op := t.states[j], t.ops[j];
    if PlansWithRoom(s, op.manifestFilename, op.doc, op.known, libs) {
      ManifestNeverOutgrows(t, config, libs, env, j, k);
    } else {
      RunOrderly(t, config, libs, env, j);
      UnflaggedRun(t, config, libs, env, j);
      assert StepAt(t, j, libs, env);
      FirstFinishSilent(s, op.manifestFilename, op.doc, op.known, libs, env);
      SilentOps(t, config, j + 1, k, op.doc, PlanningStore(s, op.known), libs, env);
    }
  }

  // ----- and exactly when, for the finish that plans ----------------------------------------------

  ghost predicate Warns(s: Sink, manifestFilename: string, doc: Doc, known: Store, libs: Libraries, env: nat -> Fate) {
    ManifestOutgrew(manifestFilename) in Finish(s, manifestFilename, doc, known, libs, env).0.warnings
  }

  lemma WarnsOutgrown(s: Sink, manifestFilename: string, doc: Doc, known: Store, libs: Libraries, env: nat -> Fate)
    returns (refused: set<nat>)
    requires Orderly(s, libs) && s.plan.None? && !s.closed && Warns(s, manifestFilename, doc, known, libs, env)
    ensures var p := Planned(s, manifestFilename, doc, known, libs);
      |p.plan.value.parts| > 0 && Outgrown(p, p.plan.value, doc, refused, libs)
  {
    hide FinishFrom, Orderly, Prepare, Outgrown, AnsweredTo, PartFilename, Unstarted, RefusedBy;
    var p := Planned(s, manifestFilename, doc, known, libs);
    var plan := p.plan.value;
    PlannedIsUnstarted(s, manifestFilename, doc, known, libs);
    UnstartedOrder(p, plan, libs);
    refused := RefusedBy(env, |plan.parts|);
    NothingAnswered(p, plan, refused, libs);
    var t, stopped := OthersAnswered(p, p, plan, doc, 0, libs, env);
    OpenFinish(s, manifestFilename, doc, known, libs, env);
    if !stopped { LastTurnWarns(p, t, plan, doc, refused, libs, env); }
  }

  lemma OutgrownWarns(s: Sink, manifestFilename: string, doc: Doc, known: Store, libs: Libraries, refused: set<nat>)
    requires Orderly(s, libs) && s.plan.None? && !s.closed
    requires var p := Planned(s, manifestFilename, doc, known, libs);
      && Others(refused, |p.plan.value.parts|)
      && |p.plan.value.parts| > 0 && Outgrown(p, p.plan.value, doc, refused, libs)
    ensures Warns(s, manifestFilename, doc, known, libs, Answering(refused))
  {
    hide FinishFrom, Orderly, Prepare, Outgrown, AnsweredTo, PartFilename, Unstarted, RefusedBy;
    var env := Answering(refused);
    var p := Planned(s, manifestFilename, doc, known, libs);
    var plan := p.plan.value;
    PlannedIsUnstarted(s, manifestFilename, doc, known, libs);
    UnstartedOrder(p, plan, libs);
    RefusedAreRefused(refused, |plan.parts|);
    NothingAnswered(p, plan, refused, libs);
    var t, stopped := OthersAnswered(p, p, plan, doc, 0, libs, env);
    OpenFinish(s, manifestFilename, doc, known, libs, env);
    LastTurnWarns(p, t, plan, doc, refused, libs, env);
    PlannedNames(s, manifestFilename, doc, known, libs);
    var last := FinishFrom(t, plan, doc, |plan.parts| - 1, libs, env).0.warnings;
    assert last[|p.warnings|] == ManifestOutgrew(plan.manifestFilename);
  }

  lemma PlannedNames(s: Sink, manifestFilename: string, doc: Doc, known: Store, libs: Libraries)
    ensures Planned(s, manifestFilename, doc, known, libs).plan.value.manifestFilename == manifestFilename
  {
    hide AfterPlan, PlannedParts;
  }

  // The finish that makes a plan warns of an outgrown manifest, under some answers of the
  // callback, exactly when for some refused parts the manifest, read with just those parts'
  // flags set among the plan's, no longer fits beside part 1's members. Under an isolating
  // plan part 1 has none, so that the manifest passes the cap by itself.
  lemma OutgrowsExactly(s: Sink, manifestFilename: string, doc: Doc, known: Store, libs: Libraries)
    requires Orderly(s, libs) && s.plan.None? && !s.closed
    ensures var p := Planned(s, manifestFilename, doc, known, libs);
      && |p.plan.value.parts| > 0
      && ((exists env: nat -> Fate :: Warns(s, manifestFilename, doc, known, libs, env))
          <==> exists refused: set<nat> :: Outgrown(p, p.plan.value, doc, refused, libs))
    ensures IsolatesManifest(s, manifestFilename, doc, known, libs) ==>
      Planned(s, manifestFilename, doc, known, libs).plan.value.parts[0] == []
  {
    hide Orderly, Prepare, Finish, Warns, Outgrown, PlanOrder;
    var p := Planned(s, manifestFilename, doc, known, libs);
    var plan, n := p.plan.value, |p.plan.value.parts|;
    PlannedIsUnstarted(s, manifestFilename, doc, known, libs);
    UnstartedOrder(p, plan, libs);
    if env: nat -> Fate :| Warns(s, manifestFilename, doc, known, libs, env) {
      var refused := WarnsOutgrown(s, manifestFilename, doc, known, libs, env);
    }
    if refused: set<nat> :| Outgrown(p, plan, doc, refused, libs) {
      var others := set i | i in refused && 0 < i < n;
      SameOutgrown(p, plan, doc, refused, others, libs);
      OutgrownWarns(s, manifestFilename, doc, known, libs, others);
      assert Warns(s, manifestFilename, doc, known, libs, Answering(others));
    }
    if IsolatesManifest(s, manifestFilename, doc, known, libs) {
      IsolatedIsEmpty(s, manifestFilename, doc, known, libs);
    }
  }

  lemma IsolatedIsEmpty(s: Sink, manifestFilename: string, doc: Doc, known: Store, libs: Libraries)
    requires IsolatesManifest(s, manifestFilename, doc, known, libs)
    ensures Planned(s, manifestFilename, doc, known, libs).plan.value.parts[0] == []
  {
    hide Size, JsonBytes, Resolve, Pack, Kept, BoundInfo, AfterPlan;
  }

  lemma SameOutgrown(p: Sink, plan: Plan, doc: Doc, a: set<nat>, b: set<nat>, libs: Libraries)
    requires |plan.parts| > 0 && forall i :: 0 < i < |plan.parts| ==> (i in a <==> i in b)
    ensures Outgrown(p, plan, doc, a, libs) == Outgrown(p, plan, doc, b, libs)
  {
    hide FitsNow, Resolve, Cleared, AfterAnswers;
    SameAnswers(p.store, plan.parts, a, b, |plan.parts| - 1);
  }

  lemma {:induction false} SameAnswers(store: Store, parts: seq<seq<Member>>, a: set<nat>, b: set<nat>, k: nat)
    requires k < |parts| && forall i :: 0 < i < |parts| ==> (i in a <==> i in b)
    ensures AfterAnswers(store, parts, a, k) == AfterAnswers(store, parts, b, k)
  {
    hide Cleared, Marked;
    if k > 0 { SameAnswers(store, parts, a, b, k - 1); }
  }
}
