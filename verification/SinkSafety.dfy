/** Truth of the zip sink's flags over whole runs: what an attached manifest says of the
    artifacts, and what the flags say once the sink is closed. */
module SinkSafety {
  import opened Basics
  import opened Json
  import opened Manifest
  import opened Packing
  import opened SinkModel
  import opened SinkInvariants
  import opened SinkOrder

  // ----- what is true of the flags ------------------------------------------------------

  // Part i holds the artifact and was attached.
  ghost predicate Delivered(s: Sink, plan: Plan, x: Member) {
    exists i :: 0 <= i < |plan.parts| && x in plan.parts[i] && NameAt(s, plan, i) in s.downloads
  }

  // Metadata read as at some moment flags exactly the artifacts no attached part holds.
  ghost predicate Truthful(s: Sink, plan: Plan, store: Store) {
    forall x :: x in AllStaged(s.groups) ==> (FlagAt(store, x.metadata) <==> !Delivered(s, plan, x))
  }

  ghost predicate EventTrue(s: Sink, plan: Plan, e: Event) {
    e.outcome.Attached? && e.doc.Some? ==> AllAnswered(s, plan) && Truthful(s, plan, e.store)
  }

  ghost predicate EventsTrue(s: Sink, plan: Plan) {
    forall e :: e in s.events ==> EventTrue(s, plan, e)
  }

  // A plan whose parts share no metadata, its flags as answered, its manifests true.
  ghost predicate PlanTruth(s: Sink, plan: Plan) {
    Apart(s.groups, plan.parts) && FlagsOk(s, plan) && EventsTrue(s, plan)
  }

  // ----- one part among others ------------------------------------------------------------

  // The metadata objects of one part are in no other part.
  lemma OtherMetas(parts: seq<seq<Member>>, i: nat, j: nat, m: Metadata)
    requires Separate(parts) && i < |parts| && j < |parts| && i != j && m in Metas(parts[j])
    ensures m !in Metas(parts[i])
  {
    if i < j {
      assert Metas(parts[i]) !! Metas(parts[j]);
    } else {
      assert Metas(parts[j]) !! Metas(parts[i]);
    }
  }

  lemma OtherPartKept(s: Sink, u: Sink, plan: Plan, i: nat, j: nat)
    requires Separate(plan.parts) && i < |plan.parts| && j < |plan.parts| && i != j
    requires PartOk(s, NameAt(s, plan, j), plan.parts[j])
    requires Touches(s, u, NameAt(s, plan, i), plan.parts[i])
    ensures PartOk(u, NameAt(u, plan, j), plan.parts[j])
  {
    hide PartFilename, Separate;
    OtherNames(s, plan, i, j);
    forall m | m in Metas(plan.parts[j])
      ensures m !in Metas(plan.parts[i])
    {
      OtherMetas(plan.parts, i, j, m);
    }
  }

  lemma FlagsKept(s: Sink, u: Sink, plan: Plan, i: nat)
    requires Apart(s.groups, plan.parts) && FlagsOk(s, plan) && i < |plan.parts|
    requires Touches(s, u, NameAt(s, plan, i), plan.parts[i]) && PartOk(u, NameAt(s, plan, i), plan.parts[i])
    ensures FlagsOk(u, plan)
  {
    forall j | 0 <= j < |plan.parts|
      ensures PartOk(u, NameAt(u, plan, j), plan.parts[j])
    {
      if j != i { OtherPartKept(s, u, plan, i, j); }
    }
  }

  // An artifact is in one part at most.
  lemma OnePart(parts: seq<seq<Member>>, x: Member, i: nat, j: nat)
    requires Separate(parts) && i < |parts| && j < |parts| && x in parts[i] && x in parts[j]
    ensures i == j
  {
    assert x.metadata in Metas(parts[j]) && x.metadata in Metas(parts[i]);
    if i != j { OtherMetas(parts, i, j, x.metadata); }
  }

  lemma DeliveredAt(s: Sink, plan: Plan, x: Member, j: nat)
    requires Separate(plan.parts) && j < |plan.parts| && x in plan.parts[j]
    ensures Delivered(s, plan, x) <==> NameAt(s, plan, j) in s.downloads
  {
    hide Separate, PartFilename;
    if Delivered(s, plan, x) {
      var i :| 0 <= i < |plan.parts| && x in plan.parts[i] && NameAt(s, plan, i) in s.downloads;
      OnePart(plan.parts, x, i, j);
    }
  }

  // ----- the manifest part 1 carries --------------------------------------------------------

  // Metadata read when part 1 goes out, every other part having its answer, is truthful
  // about what will have been attached once part 1 is.
  lemma LastPartIsTruthful(s: Sink, u: Sink, plan: Plan)
    requires Apart(s.groups, plan.parts) && FlagsOk(s, plan) && |plan.parts| > 0
    requires forall i :: 0 < i < |plan.parts| ==> NameAt(s, plan, i) in s.attempted
    requires u.config == s.config && u.groups == s.groups
    requires u.downloads == s.downloads + [NameAt(s, plan, 0)]
    ensures Truthful(u, plan, Cleared(s.store, plan.parts[0]))
  {
    hide PartFilename, AllStaged, Apart, FlagsOk, Cleared, Delivered;
    forall x | x in AllStaged(s.groups)
      ensures FlagAt(Cleared(s.store, plan.parts[0]), x.metadata) <==> !Delivered(u, plan, x)
    {
      LastPartFlag(s, u, plan, x);
    }
  }

  lemma ClearedElsewhere(store: Store, members: seq<Member>, m: Metadata)
    requires m !in Metas(members)
    ensures FlagAt(Cleared(store, members), m) == FlagAt(store, m)
  {
  }

  lemma LastPartFlag(s: Sink, u: Sink, plan: Plan, x: Member)
    requires Apart(s.groups, plan.parts) && FlagsOk(s, plan) && |plan.parts| > 0 && x in AllStaged(s.groups)
    requires forall i :: 0 < i < |plan.parts| ==> NameAt(s, plan, i) in s.attempted
    requires u.config == s.config && u.downloads == s.downloads + [NameAt(s, plan, 0)]
    ensures FlagAt(Cleared(s.store, plan.parts[0]), x.metadata) <==> !Delivered(u, plan, x)
  {
    hide PartFilename, AllStaged, Separate, Cleared, FlagAt;
    ClearedTouches(s.store, plan.parts[0]);
    if x.metadata !in Metas(plan.parts[0]) { ClearedElsewhere(s.store, plan.parts[0], x.metadata); }
    if !InParts(plan.parts, x) {
      assert x.metadata !in Metas(plan.parts[0]);
      assert FlagAt(s.store, x.metadata);
    } else {
      var j :| 0 <= j < |plan.parts| && x in plan.parts[j];
      assert x.metadata in Metas(plan.parts[j]) && PartOk(s, NameAt(s, plan, j), plan.parts[j]);
      DeliveredAt(u, plan, x, j);
      assert NameAt(u, plan, j) == NameAt(s, plan, j);
      if j > 0 {
        OtherMetas(plan.parts, 0, j, x.metadata);
        OtherNames(s, plan, 0, j);
      }
    }
  }

  lemma OldEventTrue(s: Sink, u: Sink, plan: Plan, i: nat, e: Event)
    requires i < |plan.parts| && EventTrue(s, plan, e)
    requires Touches(s, u, NameAt(s, plan, i), plan.parts[i])
    requires u.downloads == s.downloads || NameAt(s, plan, i) !in s.attempted
    ensures EventTrue(u, plan, e)
  {
    hide PartFilename, AllStaged, StoreTouched;
    assert forall k :: NameAt(u, plan, k) == NameAt(s, plan, k);
    if e.outcome.Attached? && e.doc.Some? {
      assert NameAt(s, plan, i) in s.attempted;
      assert u.downloads == s.downloads && s.attempted <= u.attempted;
      forall x | x in AllStaged(u.groups)
        ensures Delivered(u, plan, x) <==> Delivered(s, plan, x)
      {
      }
    }
  }

  lemma NewEventTrue(s: Sink, u: Sink, plan: Plan, i: nat, e: Event, doc: Doc, libs: Libraries)
    requires Apart(s.groups, plan.parts) && FlagsOk(s, plan) && i < |plan.parts|
    requires NameAt(s, plan, i) !in s.attempted && NameAt(s, plan, i) !in s.downloads
    requires i == 0 ==> forall j :: 0 < j < |plan.parts| ==> NameAt(s, plan, j) in s.attempted
    requires Touches(s, u, NameAt(s, plan, i), plan.parts[i])
    requires NewEvent(s, u, e, doc, i, NameAt(s, plan, i), plan.parts[i],
                      if i == 0 then plan.manifestName else None, libs)
    ensures EventTrue(u, plan, e)
  {
    hide PartFilename, FaithfulEvent, AllStaged, StoreTouched, FlagsOk, Truthful, Apart;
    if e.outcome.Attached? && e.doc.Some? {
      FaithfulEither(e, i == 0, plan.manifestName, s.config.maxBytes, libs);
      assert i == 0;
      assert u.downloads == s.downloads + [NameAt(s, plan, 0)];
      LastPartIsTruthful(s, u, plan);
      forall j | 0 <= j < |plan.parts|
        ensures NameAt(u, plan, j) in u.attempted
      {
        assert j > 0 ==> NameAt(s, plan, j) in s.attempted;
      }
    }
  }

  // ----- the loop -------------------------------------------------------------------

  ghost predicate LoopOk(s: Sink, plan: Plan, libs: Libraries) {
    LoopOrder(s, plan, libs) && PlanTruth(s, plan)
  }

  lemma TruthKept(s: Sink, u: Sink, plan: Plan, i: nat)
    requires PlanTruth(s, plan) && i < |plan.parts|
    requires Touches(s, u, NameAt(s, plan, i), plan.parts[i]) && PartOk(u, NameAt(s, plan, i), plan.parts[i])
    requires EventsTrue(u, plan)
    ensures PlanTruth(u, plan)
  {
    hide PartFilename, Apart, FlagsOk, EventTrue;
    FlagsKept(s, u, plan, i);
  }

  // A part already answered is only flagged again.
  lemma AnsweredPartKept(s: Sink, u: Sink, plan: Plan, i: nat)
    requires PlanTruth(s, plan) && i < |plan.parts|
    requires Touches(s, u, NameAt(s, plan, i), plan.parts[i]) && PartOk(u, NameAt(s, plan, i), plan.parts[i])
    requires u.events == s.events && u.downloads == s.downloads
    ensures PlanTruth(u, plan)
  {
    hide PartFilename, Apart, FlagsOk, EventTrue, PartOk;
    forall e | e in u.events ensures EventTrue(u, plan, e) { OldEventTrue(s, u, plan, i, e); }
    TruthKept(s, u, plan, i);
  }

  lemma PendingPartKeeps(s: Sink, u: Sink, going: bool, plan: Plan, doc: Doc, i: nat, libs: Libraries)
    requires PlanTruth(s, plan) && i < |plan.parts|
    requires NameAt(s, plan, i) !in s.attempted && NameAt(s, plan, i) !in s.downloads
    requires i == 0 ==> forall j :: 0 < j < |plan.parts| ==> NameAt(s, plan, j) in s.attempted
    requires Turned(s, u, going, doc, i, NameAt(s, plan, i), plan.parts[i],
                    if i == 0 then plan.manifestName else None, libs)
    ensures PlanTruth(u, plan)
  {
    hide PartFilename, Apart, EventTrue, StoreTouched, NewEvent;
    assert PartOk(s, NameAt(s, plan, i), plan.parts[i]);
    forall e | e in u.events
      ensures EventTrue(u, plan, e)
    {
      if e in s.events {
        OldEventTrue(s, u, plan, i, e);
      } else {
        assert u.events == s.events + [u.events[|s.events|]];
        NewEventTrue(s, u, plan, i, e, doc, libs);
      }
    }
    TruthKept(s, u, plan, i);
  }

  lemma FinishPartKeeps(s: Sink, plan: Plan, doc: Doc, i: nat, libs: Libraries, env: nat -> Fate)
    requires LoopOk(s, plan, libs) && i < |plan.parts|
    requires i == 0 ==> forall j :: 0 < j < |plan.parts| ==> NameAt(s, plan, j) in s.attempted
    ensures var (u, going) := FinishPart(s, plan, doc, i, libs, env);
            && LoopOk(u, plan, libs) && Touches(s, u, NameAt(s, plan, i), plan.parts[i])
            && (going <==> NameAt(s, plan, i) in u.attempted)
  {
    hide PartFilename, AttemptPending, Apart, StoreTouched, EventsTrue, Turned, StagedOk, PlanSound, EventsSound;
    var name, members := NameAt(s, plan, i), plan.parts[i];
    FinishPartOrders(s, plan, doc, i, libs, env);
    PlannedAreStored(s, plan, i, libs);
    assert PartOk(s, name, members);
    if name in s.downloads {
      ConfirmTouches(s, name, members);
      AnsweredPartKept(s, Confirm(s, members), plan, i);
    } else if name in s.attempted {
      MissingTouches(s, name, members);
      AnsweredPartKept(s, Missing(s, members), plan, i);
    } else {
      PendingPartOrders(s, plan, doc, i, libs, env(|s.events|));
      var (u, going) := FinishPart(s, plan, doc, i, libs, env);
      PendingPartKeeps(s, u, going, plan, doc, i, libs);
    }
  }

  lemma {:induction false} FinishFromKeeps(s: Sink, plan: Plan, doc: Doc, k: nat, libs: Libraries, env: nat -> Fate)
    requires k <= |plan.parts| && LoopOk(s, plan, libs) && AnsweredUpTo(s, plan, k)
    ensures PlanTruth(FinishFrom(s, plan, doc, k, libs, env).0, plan)
    decreases |plan.parts| - k
  {
    hide PartFilename, FinishPart, PlanTruth, LoopOrder, StoreTouched;
    AnsweredBefore(s, plan, k);
    if k == |plan.parts| {
      FinishedTrue(s, plan);
    } else {
      var i := Position(k, |plan.parts|);
      var (u, going) := FinishPart(s, plan, doc, i, libs, env);
      FinishPartKeeps(s, plan, doc, i, libs, env);
      TouchesKeepsStaging(s, u, NameAt(s, plan, i), plan.parts[i]);
      if going {
        assert forall j :: NameAt(u, plan, j) == NameAt(s, plan, j);
        FinishFromKeeps(u, plan, doc, k + 1, libs, env);
      }
    }
  }

  lemma TruthAt(s: Sink, plan: Plan, i: nat)
    requires PlanTruth(s, plan) && i < |plan.parts|
    ensures PartOk(s, NameAt(s, plan, i), plan.parts[i])
  {
  }

  lemma FinishedTrue(s: Sink, plan: Plan)
    requires PlanTruth(s, plan)
    ensures PlanTruth(s.(finished := true, closed := true), plan)
  {
    hide PartFilename, AllStaged, PlanTruth;
    forall i, m | 0 <= i < |plan.parts| && m in Metas(plan.parts[i]) ensures m in s.store { TruthAt(s, plan, i); }
    TruthStays(s, s.(finished := true, closed := true), plan);
  }

  // What is true stays true where neither flags nor answers change.
  lemma TruthStays(s: Sink, t: Sink, plan: Plan)
    requires PlanTruth(s, plan) && t.groups == s.groups && t.config == s.config
    requires t.downloads == s.downloads && t.attempted == s.attempted && t.confirmed == s.confirmed
    requires t.events == s.events
    requires forall i, m :: 0 <= i < |plan.parts| && m in Metas(plan.parts[i]) ==>
      m in s.store && m in t.store && (NameAt(s, plan, i) in s.attempted ==> FlagAt(t.store, m) == FlagAt(s.store, m))
    requires forall x :: x in AllStaged(s.groups) && FlagAt(s.store, x.metadata) ==> FlagAt(t.store, x.metadata)
    ensures PlanTruth(t, plan)
  {
    hide PartFilename, AllStaged, Apart, FlagAt;
    assert forall k :: NameAt(t, plan, k) == NameAt(s, plan, k);
    forall i | 0 <= i < |plan.parts|
      ensures PartOk(t, NameAt(t, plan, i), plan.parts[i])
    {
      assert PartOk(s, NameAt(s, plan, i), plan.parts[i]);
    }
    forall e | e in t.events ensures EventTrue(t, plan, e) {
      assert EventTrue(s, plan, e);
      assert forall x :: Delivered(t, plan, x) <==> Delivered(s, plan, x);
    }
  }

  // Once every part has its answer, the flags tell what was attached.
  lemma AnsweredIsTruthful(s: Sink, plan: Plan)
    requires Apart(s.groups, plan.parts) && FlagsOk(s, plan) && AllAnswered(s, plan)
    ensures Truthful(s, plan, s.store)
  {
    hide PartFilename, AllStaged, Separate;
    forall x | x in AllStaged(s.groups)
      ensures FlagAt(s.store, x.metadata) <==> !Delivered(s, plan, x)
    {
      if InParts(plan.parts, x) {
        var j :| 0 <= j < |plan.parts| && x in plan.parts[j];
        assert x.metadata in Metas(plan.parts[j]) && PartOk(s, NameAt(s, plan, j), plan.parts[j]);
        DeliveredAt(s, plan, x, j);
      }
    }
  }

  // ----- every operation --------------------------------------------------------------

  // A staged artifact reached the user.
  ghost predicate Shipped(s: Sink, x: Member) {
    s.plan.Some? && Delivered(s, s.plan.value, x)
  }

  ghost predicate ClosedTruth(s: Sink) {
    forall x :: x in AllStaged(s.groups) ==> (FlagAt(s.store, x.metadata) <==> !Shipped(s, x))
  }

  ghost predicate Inv(s: Sink, libs: Libraries) {
    && Orderly(s, libs)
    && (s.plan.Some? ==> PlanTruth(s, s.plan.value))
    && (s.closed ==> ClosedTruth(s))
  }

  // Should this call of `finish` make the plan, it is one whose parts stand apart.
  ghost predicate PlansApart(s: Sink, manifestFilename: string, doc: Doc, known: Store, libs: Libraries) {
    s.plan.None? && !s.closed ==>
      Apart(s.groups, Prepare(Begun(s, known), manifestFilename, doc, libs).plan.value.parts)
  }

  lemma UnplannedFlagged(s: Sink, manifestFilename: string, doc: Doc, libs: Libraries)
    requires StagedOk(s, libs) && Blank(s)
    requires Apart(s.groups, Prepare(s, manifestFilename, doc, libs).plan.value.parts)
    ensures var t := Prepare(s, manifestFilename, doc, libs); PlanTruth(t, t.plan.value)
  {
    hide PlanFor, Kept, Dropped, Resolve, ManifestAttachable, PartFilename, PlanSound, Separate;
    var t := Prepare(s, manifestFilename, doc, libs);
    var plan := t.plan.value;
    AfterPlanKeeps(s, libs);
    PlanForSound(s, t, manifestFilename, Resolve(doc, AfterPlan(s).store), libs);
    forall x | x in AllStaged(t.groups) && !InParts(plan.parts, x)
      ensures FlagAt(t.store, x.metadata) && x.metadata !in t.confirmed
    {
      if x.metadata !in s.addFailed { KeptOrDropped(s.groups, s.addFailed, s.config.maxBytes, x); }
    }
    PrepareOrders(s, manifestFilename, doc, libs);
    forall i | 0 <= i < |plan.parts|
      ensures PartOk(t, NameAt(t, plan, i), plan.parts[i])
    {
      PlannedAreStored(t, plan, i, libs);
    }
  }

  lemma FinishKeeps(s: Sink, manifestFilename: string, doc: Doc, known: Store, libs: Libraries, env: nat -> Fate)
    requires Inv(s, libs) && PlansApart(s, manifestFilename, doc, known, libs)
    ensures Inv(Finish(s, manifestFilename, doc, known, libs, env).0, libs)
    ensures Finish(s, manifestFilename, doc, known, libs, env).0.config == s.config
  {
    hide PlanOrder, PlanTruth, StagedOk, NamedOnce, Apart, FinishFrom, AfterPlan, PlanFor, PartFilename, ClosedTruth;
    FinishOrders(s, manifestFilename, doc, known, libs, env);
    if !s.finished && !s.closed {
      var begun := Begun(s, known);
      BegunOrders(s, known, libs);
      if s.plan.None? {
        PrepareOrders(begun, manifestFilename, doc, libs);
        UnplannedFlagged(begun, manifestFilename, doc, libs);
        LoopEndsTrue(Prepare(begun, manifestFilename, doc, libs), doc, libs, env);
      } else {
        BegunTrue(s, known, libs);
        if s.plan.value.manifestFilename == manifestFilename { LoopEndsTrue(begun, doc, libs, env); }
      }
    }
  }

  lemma BegunTrue(s: Sink, known: Store, libs: Libraries)
    requires Orderly(s, libs) && s.plan.Some? && PlanTruth(s, s.plan.value)
    ensures PlanTruth(Begun(s, known), s.plan.value)
  {
    hide PartFilename, AllStaged, PlanTruth, EventsSound, NamedOnce, Fits;
    var t, plan := Begun(s, known), s.plan.value;
    assert forall m :: m in s.store ==> m in t.store && t.store[m] == s.store[m];
    forall i, m | 0 <= i < |plan.parts| && m in Metas(plan.parts[i]) ensures m in s.store {}
    TruthStays(s, t, plan);
  }

  lemma LoopEndsTrue(s: Sink, doc: Doc, libs: Libraries, env: nat -> Fate)
    requires s.plan.Some? && StagedOk(s, libs) && PlanOrder(s, s.plan.value, libs) && PlanTruth(s, s.plan.value)
    requires !s.closed
    ensures var t := FinishFrom(s, s.plan.value, doc, 0, libs, env).0;
      t.plan == s.plan && PlanTruth(t, s.plan.value) && (t.closed ==> ClosedTruth(t))
  {
    hide StagedOk, AllStaged, FinishFrom, PartFilename, PlanOrder, Apart, FlagsOk, EventsTrue;
    var plan := s.plan.value;
    FinishFromOrders(s, plan, doc, 0, libs, env);
    FinishFromKeeps(s, plan, doc, 0, libs, env);
    var (t, done) := FinishFrom(s, plan, doc, 0, libs, env);
    if done { AnsweredIsTruthful(t, plan); }
  }

  lemma AddKeeps(s: Sink, filename: string, payload: Json, device: Option<string>, metadata: Metadata,
                 given: seq<Field>, fault: Fault, libs: Libraries)
    requires Inv(s, libs)
    ensures Inv(Add(s, filename, payload, device, metadata, given, fault, libs).0, libs)
  {
    hide PlanOrder, PlanTruth, NamedOnce, Described, Stage, StagedOk, JsonBytes, ClosedTruth;
    AddOrders(s, filename, payload, device, metadata, given, fault, libs);
  }

  lemma CloseKeeps(s: Sink, libs: Libraries)
    requires Inv(s, libs)
    ensures Inv(Close(s), libs)
  {
    hide Orderly, AllStaged, Live, PlanTruth, Shipped;
    CloseOrders(s, libs);
    if !s.finished {
      var t := Close(s);
      OrderStages(s, libs);
      CloseCloses(s, libs);
      if s.plan.Some? { ClosePlanKeeps(s, t, s.plan.value, libs); }
      forall x | x in AllStaged(t.groups)
        ensures FlagAt(t.store, x.metadata) <==> !Shipped(t, x)
      {
        CloseIsTruthful(s, t, x, libs);
      }
    } else {
      FinishedCloses(s, libs);
    }
  }

  lemma OrderStages(s: Sink, libs: Libraries)
    requires Orderly(s, libs)
    ensures StagedOk(s, libs) && (s.plan.Some? ==> LoopOrder(s, s.plan.value, libs))
  {
  }

  lemma FinishedCloses(s: Sink, libs: Libraries)
    requires Orderly(s, libs) && s.finished
    ensures Close(s) == s
  {
    hide StagedOk, PlanOrder, NamedOnce;
  }

  lemma ClosePlanKeeps(s: Sink, t: Sink, plan: Plan, libs: Libraries)
    requires PlanTruth(s, plan) && ClosesTo(s, t) && LoopOrder(s, plan, libs)
    ensures PlanTruth(t, plan)
  {
    hide PartFilename, Fits, AllStaged, Apart, EventsTrue, EventsSound, PlanTruth;
    forall i, m | 0 <= i < |plan.parts| && m in Metas(plan.parts[i])
      ensures m in s.store && m in t.store
      ensures NameAt(s, plan, i) in s.attempted ==> FlagAt(t.store, m) == FlagAt(s.store, m)
    {
      TruthAt(s, plan, i);
    }
    TruthStays(s, t, plan);
  }

  lemma CloseIsTruthful(s: Sink, t: Sink, x: Member, libs: Libraries)
    requires Inv(s, libs) && ClosesTo(s, t) && x in AllStaged(s.groups)
    ensures FlagAt(t.store, x.metadata) <==> !Shipped(t, x)
  {
    hide PartFilename, Fits, AllStaged, EventsTrue, EventsSound, Separate, NamedOnce;
    if s.plan.Some? {
      var plan := s.plan.value;
      assert forall k :: NameAt(t, plan, k) == NameAt(s, plan, k);
      if InParts(plan.parts, x) {
        var j :| 0 <= j < |plan.parts| && x in plan.parts[j];
        assert x.metadata in Metas(plan.parts[j]) && PartOk(s, NameAt(s, plan, j), plan.parts[j]);
        DeliveredAt(s, plan, x, j);
        assert Delivered(t, plan, x) <==> Delivered(s, plan, x);
      }
    }
  }

  // ----- whole runs -------------------------------------------------------------------

  // Should this step make the plan, no metadata object is shared across its parts.
  ghost predicate ApartAt(t: Trace, k: nat, libs: Libraries)
    requires k < |t.ops| && k < |t.states|
  {
    KeepsApart(t.states[k], t.ops[k], libs)
  }

  ghost predicate KeepsApart(s: Sink, op: Op, libs: Libraries) {
    op.FinishOp? ==> PlansApart(s, op.manifestFilename, op.doc, op.known, libs)
  }

  // A run whose plan, if it makes one, shares no metadata object across its parts.
  ghost predicate ApartRun(t: Trace, config: Config, libs: Libraries, env: nat -> Fate) {
    && IsRun(t, config, libs, env)
    && forall k: nat :: k < |t.ops| ==> ApartAt(t, k, libs)
  }

  lemma InitialInv(config: Config, libs: Libraries)
    ensures Inv(Initial(config), libs)
  {
  }

  lemma ApplyKeeps(s: Sink, op: Op, libs: Libraries, env: nat -> Fate)
    requires Inv(s, libs) && KeepsApart(s, op, libs)
    ensures Inv(Apply(s, op, libs, env), libs)
  {
    hide Inv, PlansApart;
    match op
    case AddOp(filename, payload, device, metadata, given, fault) =>
      AddKeeps(s, filename, payload, device, metadata, given, fault, libs);
    case FinishOp(manifestFilename, doc, known) => FinishKeeps(s, manifestFilename, doc, known, libs, env);
    case CloseOp => CloseKeeps(s, libs);
  }

  lemma {:induction false} RunKeeps(t: Trace, config: Config, libs: Libraries, env: nat -> Fate, k: nat)
    requires ApartRun(t, config, libs, env) && k < |t.states|
    ensures Inv(t.states[k], libs)
  {
    hide Inv, KeepsApart, Apply;
    if k == 0 {
      InitialInv(config, libs);
    } else {
      RunKeeps(t, config, libs, env, k - 1);
      assert StepAt(t, k - 1, libs, env) && ApartAt(t, k - 1, libs);
      ApplyKeeps(t.states[k - 1], t.ops[k - 1], libs, env);
    }
  }

  // Some part the callback accepted holds the artifact.
  ghost predicate Held(s: Sink, x: Member) {
    exists e :: e in s.events && e.outcome.Attached? && x in e.members
  }

  lemma HeldIffShipped(s: Sink, x: Member, libs: Libraries)
    requires Orderly(s, libs)
    ensures Held(s, x) <==> Shipped(s, x)
  {
    hide PartFilename, StagedOk, PlanSound, FaithfulEvent, AnswersOk, NamedOnce;
    if Held(s, x) {
      var e :| e in s.events && e.outcome.Attached? && x in e.members;
      assert EventSound(s, s.plan.value, e, libs);
      assert x in s.plan.value.parts[e.index];
    }
    if Shipped(s, x) {
      var plan := s.plan.value;
      var i :| 0 <= i < |plan.parts| && x in plan.parts[i] && NameAt(s, plan, i) in s.downloads;
      assert Sent(s, NameAt(s, plan, i));
      var e :| e in s.events && e.outcome.Attached? && e.name == NameAt(s, plan, i);
      assert EventSound(s, plan, e, libs);
      if e.index != i { OtherNames(s, plan, e.index, i); }
    }
  }

  // Over every run of adds, finishes and closes that shares no metadata across its plan's
  // parts, whatever the callback answers or raises and however often `finish` is retried: a
  // manifest that was attached flags a staged artifact exactly when no attached part, part 1
  // included, holds it. And the archive that carried it is the one written from that text.
  lemma AttachedManifestIsTruthful(t: Trace, config: Config, libs: Libraries, env: nat -> Fate, k: nat, e: Event,
                                   x: Member)
    requires ApartRun(t, config, libs, env) && k < |t.states|
    requires e in t.states[k].events && e.outcome.Attached? && e.doc.Some? && x in AllStaged(t.states[k].groups)
    ensures var s := t.states[k];
            && (FlagAt(e.store, x.metadata) <==> !Held(s, x))
            && s.plan.Some? && s.plan.value.manifestName.Some?
            && e.archive == BuildPart(s.plan.value.manifestName.value,
                                      Some(JsonBytes(Resolve(e.doc.value, e.store))), e.members, libs)
  {
    hide StagedOk, PlanSound, FlagsOk, PartFilename, JsonBytes, Resolve, BuildPart, AnswersOk, ClosedTruth, ApartRun;
    hide NamedOnce, Apart;
    var s := t.states[k];
    RunKeeps(t, config, libs, env, k);
    assert EventSound(s, s.plan.value, e, libs) && EventTrue(s, s.plan.value, e);
    HeldIffShipped(s, x, libs);
  }

  // Once closed, abandoned or finished, a staged artifact is unflagged exactly when an
  // attached part holds it.
  lemma ClosedFlagsAreTruthful(t: Trace, config: Config, libs: Libraries, env: nat -> Fate, k: nat, x: Member)
    requires ApartRun(t, config, libs, env) && k < |t.states|
    requires t.states[k].closed && x in AllStaged(t.states[k].groups)
    ensures FlagAt(t.states[k].store, x.metadata) <==> !Held(t.states[k], x)
  {
    hide Orderly, PlanTruth, ApartRun;
    RunKeeps(t, config, libs, env, k);
    HeldIffShipped(t.states[k], x, libs);
  }
}
