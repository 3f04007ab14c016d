/** That metadata must not be shared across parts: where it is, some answers of the callback
    make an attached manifest false, and leave a false flag once the sink is closed. */
module SinkNeed {
  import opened Basics
  import opened Manifest
  import opened Packing
  import opened SinkModel
  import opened SinkInvariants
  import opened SinkOrder
  import opened SinkSafety
  import opened SinkAnswers
  import opened SinkReservation

  // ----- a finish whose callback refuses some parts -----------------------------------------

  // Some part not refused holds the artifact.
  predicate Accepted(parts: seq<seq<Member>>, refused: set<nat>, x: Member) {
    exists i: nat :: i < |parts| && i !in refused && x in parts[i]
  }

  // It completes, its archives hold what it accepted, and the manifest goes along if it fits.
  lemma AnsweredFinish(s: Sink, manifestFilename: string, doc: Doc, known: Store, refused: set<nat>, libs: Libraries)
    requires Orderly(s, libs) && s.plan.None? && !s.closed
    requires Others(refused, |Planned(s, manifestFilename, doc, known, libs).plan.value.parts|)
    ensures var p := Planned(s, manifestFilename, doc, known, libs);
      var u := Finish(s, manifestFilename, doc, known, libs, Answering(refused)).0;
      && Orderly(u, libs) && u.closed && u.groups == s.groups && |p.plan.value.parts| > 0
      && (forall x :: Held(u, x) <==> Accepted(p.plan.value.parts, refused, x))
      && (p.plan.value.manifestName.Some? && !Outgrown(p, p.plan.value, doc, refused, libs) ==>
            exists e :: e in u.events && e.outcome.Attached? && e.doc.Some?)
  {
    hide FinishFrom, Orderly, Prepare, Outgrown, Held, Accepted, AnsweredTo, PartFilename, Unstarted;
    var env := Answering(refused);
    var p := Planned(s, manifestFilename, doc, known, libs);
    var plan, n := p.plan.value, |p.plan.value.parts|;
    FinishOrders(s, manifestFilename, doc, known, libs, env);
    PlannedIsUnstarted(s, manifestFilename, doc, known, libs);
    RefusedAreRefused(refused, n);
    NothingAnswered(p, plan, refused, libs);
    UnstartedOrder(p, plan, libs);
    var t, stopped := OthersAnswered(p, p, plan, doc, 0, libs, env);
    OpenFinish(s, manifestFilename, doc, known, libs, env);
    AnsweredPlan(p, t, plan, refused, n - 1);
    LastTurnAttaches(p, t, plan, doc, refused, libs, env);
    var u := Finish(s, manifestFilename, doc, known, libs, env).0;
    forall x ensures Held(u, x) <==> Accepted(plan.parts, refused, x) {
      HeldIffShipped(u, x, libs);
      AcceptedIsShipped(p, t, u, plan, refused, x);
    }
  }

  lemma AnsweredPlan(p: Sink, t: Sink, plan: Plan, refused: set<nat>, k: nat)
    requires AnsweredTo(p, t, plan, refused, k)
    ensures t.plan == p.plan && t.config == p.config && t.groups == p.groups
  {
  }

  lemma AcceptedIsShipped(p: Sink, t: Sink, u: Sink, plan: Plan, refused: set<nat>, x: Member)
    requires |plan.parts| > 0 && AnsweredTo(p, t, plan, refused, |plan.parts| - 1) && Others(refused, |plan.parts|)
    requires u.plan == Some(plan) && u.config == t.config
    requires u.downloads == t.downloads || u.downloads == t.downloads + [NameAt(t, plan, 0)]
    requires plan.parts[0] != [] ==> NameAt(t, plan, 0) in u.downloads
    ensures Shipped(u, x) <==> Accepted(plan.parts, refused, x)
  {
    hide PartFilename, AfterAnswers;
    assert forall i :: NameAt(u, plan, i) == NameAt(t, plan, i);
    forall i: nat | i < |plan.parts| && x in plan.parts[i]
      ensures NameAt(u, plan, i) in u.downloads <==> i !in refused
    {
      if i > 0 {
        assert PartAnswered(t, plan, refused, i);
        OtherNames(t, plan, i, 0);
      }
    }
    if Accepted(plan.parts, refused, x) {
      var i: nat :| i < |plan.parts| && i !in refused && x in plan.parts[i];
      assert NameAt(u, plan, i) in u.downloads;
    }
  }

  // ----- sharing across parts shows ----------------------------------------------------------

  lemma InPlanIsStaged(s: Sink, plan: Plan, i: nat, x: Member)
    requires Flatten(plan.parts) == Flatten(PlanningGroups(s)) && i < |plan.parts| && x in plan.parts[i]
    ensures x in AllStaged(s.groups)
  {
    hide Kept;
    assert InParts(plan.parts, x);
    InFlatten(plan.parts, x);
    KeptIsStaged(s.groups, s.addFailed, s.config.maxBytes, x);
  }

  // A plan that shares an object across its parts, or between a part and an artifact in none,
  // has answers under which that object describes an artifact that is held and one that is not.
  lemma SharingShows(s: Sink, plan: Plan) returns (refused: set<nat>, x: Member, y: Member)
    requires NamedOnce(s) && Flatten(plan.parts) == Flatten(PlanningGroups(s))
    requires !Apart(s.groups, plan.parts)
    ensures Others(refused, |plan.parts|)
    ensures x in AllStaged(s.groups) && y in AllStaged(s.groups) && x.metadata == y.metadata
    ensures Accepted(plan.parts, refused, x) && !Accepted(plan.parts, refused, y)
  {
    hide Kept, AllStaged, NamedOnce, PlanningGroups;
    var n := |plan.parts|;
    if Separate(plan.parts) {
      var i;
      y, i :|
        y in AllStaged(s.groups) && !InParts(plan.parts, y) && 0 <= i < n && y.metadata in Metas(plan.parts[i]);
      x :| x in plan.parts[i] && x.metadata == y.metadata;
      refused := {};
      InPlanIsStaged(s, plan, i, x);
      assert !Accepted(plan.parts, refused, y);
    } else {
      var i, j :| 0 <= i < j < n && !(Metas(plan.parts[i]) !! Metas(plan.parts[j]));
      var m :| m in Metas(plan.parts[i]) && m in Metas(plan.parts[j]);
      x :| x in plan.parts[i] && x.metadata == m;
      y :| y in plan.parts[j] && y.metadata == m;
      refused := {j};
      InPlanIsStaged(s, plan, i, x);
      InPlanIsStaged(s, plan, j, y);
      forall k: nat | k < n && y in plan.parts[k] ensures k == j { InOnePart(s, plan.parts, k, j, y); }
    }
  }

  // ----- a manifest that is false of an artifact ----------------------------------------------

  // Some attached manifest flags an artifact that an attached part holds, or does not flag
  // one that none holds.
  ghost predicate Misleads(s: Sink) {
    exists e, x :: e in s.events && e.outcome.Attached? && e.doc.Some? && x in AllStaged(s.groups)
      && (FlagAt(e.store, x.metadata) <==> Held(s, x))
  }

  ghost predicate MisleadsNever(s: Sink, manifestFilename: string, doc: Doc, known: Store, libs: Libraries) {
    forall env: nat -> Fate :: !Misleads(Finish(s, manifestFilename, doc, known, libs, env).0)
  }

  // What a sink in order attached tells the truth.
  lemma SoundNeverMisleads(u: Sink, libs: Libraries)
    requires Inv(u, libs)
    ensures !Misleads(u)
  {
    hide StagedOk, PlanSound, FlagsOk, NamedOnce, PartFilename, AnswersOk, ClosedTruth, FaithfulEvent, Held, Apart;
    if Misleads(u) {
      var e, x :| e in u.events && e.outcome.Attached? && e.doc.Some? && x in AllStaged(u.groups)
        && (FlagAt(e.store, x.metadata) <==> Held(u, x));
      assert EventTrue(u, u.plan.value, e);
      HeldIffShipped(u, x, libs);
      assert false;
    }
  }

  // The manifest is attached, whatever becomes of parts 2..n.
  ghost predicate AlwaysFits(s: Sink, manifestFilename: string, doc: Doc, known: Store, libs: Libraries) {
    var p := Planned(s, manifestFilename, doc, known, libs);
    && p.plan.value.manifestName.Some? && |p.plan.value.parts| > 0
    && forall refused: set<nat> :: !Outgrown(p, p.plan.value, doc, refused, libs)
  }

  // Where a plan shares an object across its parts, or between a part and an artifact in
  // none, some answers make the manifest it attaches false.
  lemma SharedAcrossPartsMisleads(s: Sink, manifestFilename: string, doc: Doc, known: Store, libs: Libraries)
    returns (env: nat -> Fate)
    requires Orderly(s, libs) && s.plan.None? && !s.closed
    requires AlwaysFits(s, manifestFilename, doc, known, libs)
    requires !PlansApart(s, manifestFilename, doc, known, libs)
    ensures Misleads(Finish(s, manifestFilename, doc, known, libs, env).0)
  {
    hide Finish, Prepare, Held, AllStaged, Apart, Outgrown, PlanOrder, StagedOk, NamedOnce, Accepted;
    var p := Planned(s, manifestFilename, doc, known, libs);
    PlannedIsUnstarted(s, manifestFilename, doc, known, libs);
    var refused, x, y := SharingShows(s, p.plan.value);
    env := Answering(refused);
    AnsweredFinish(s, manifestFilename, doc, known, refused, libs);
    var u := Finish(s, manifestFilename, doc, known, libs, env).0;
    var e :| e in u.events && e.outcome.Attached? && e.doc.Some?;
    assert Held(u, x) && !Held(u, y);
    assert (FlagAt(e.store, x.metadata) <==> Held(u, x)) || (FlagAt(e.store, y.metadata) <==> Held(u, y));
  }

  // A finish that makes a plan and never has to leave its manifest out attaches true
  // manifests whatever the callback answers exactly when the plan stands apart.
  lemma TruthfulExactlyWhenApart(s: Sink, manifestFilename: string, doc: Doc, known: Store, libs: Libraries)
    requires Orderly(s, libs) && s.plan.None? && !s.closed
    requires AlwaysFits(s, manifestFilename, doc, known, libs)
    ensures MisleadsNever(s, manifestFilename, doc, known, libs) <==> PlansApart(s, manifestFilename, doc, known, libs)
  {
    hide Orderly, Finish, PlansApart, AlwaysFits, Misleads;
    if PlansApart(s, manifestFilename, doc, known, libs) {
      forall env: nat -> Fate ensures !Misleads(Finish(s, manifestFilename, doc, known, libs, env).0) {
        FinishKeeps(s, manifestFilename, doc, known, libs, env);
        SoundNeverMisleads(Finish(s, manifestFilename, doc, known, libs, env).0, libs);
      }
    } else {
      var env := SharedAcrossPartsMisleads(s, manifestFilename, doc, known, libs);
    }
  }

  // A plan that reserves room for its manifest never has to leave it out.
  lemma RoomAlwaysFits(s: Sink, manifestFilename: string, doc: Doc, known: Store, libs: Libraries)
    requires Orderly(s, libs) && Bounded(libs) && PlansWithRoom(s, manifestFilename, doc, known, libs)
    ensures AlwaysFits(s, manifestFilename, doc, known, libs)
  {
    hide ReservedAt, SplitWithRoom, Tidy, AfterPlan, Prepare, PlanOrder, StagedOk, NamedOnce, Bounded, Unstarted;
    hide Outgrown;
    var p := Planned(s, manifestFilename, doc, known, libs);
    var before := PlanningStore(s, known);
    PlannedIsUnstarted(s, manifestFilename, doc, known, libs);
    PlanReserves(Begun(s, known), manifestFilename, doc, libs);
    ReservedHasManifest(p, doc, before);
    forall refused: set<nat> ensures !Outgrown(p, p.plan.value, doc, refused, libs) {
      RoomStays(p, doc, before, refused, libs);
    }
  }

  lemma RoomStays(p: Sink, doc: Doc, before: Store, refused: set<nat>, libs: Libraries)
    requires p.plan.Some? && Unstarted(p, p.plan.value, libs) && ReservedAt(p, doc, before) && Bounded(libs)
    ensures |p.plan.value.parts| > 0 && !Outgrown(p, p.plan.value, doc, refused, libs)
  {
    hide ReservedAt, FitsNow, Resolve, Cleared, AfterAnswers, LoopOrder, Bounded, Marks, Describes;
    var plan := p.plan.value;
    ReservedHasManifest(p, doc, before);
    var k := |plan.parts| - 1;
    ReservedThrough(p, plan, doc, before, refused, k, libs);
    var s := p.(store := AfterAnswers(p.store, plan.parts, refused, k));
    var u := p.(store := Cleared(s.store, plan.parts[0]));
    PlannedDescribesStill(p, plan, refused, k, 0, libs);
    MarkedMarks(s.store, plan.parts[0]);
    ReservedStep(s, u, doc, before);
    ReservedFits(u, doc, before, libs);
  }

  lemma {:induction false} ReservedThrough(p: Sink, plan: Plan, doc: Doc, before: Store, refused: set<nat>, k: nat,
                                           libs: Libraries)
    requires Unstarted(p, plan, libs) && ReservedAt(p, doc, before) && k < |plan.parts|
    ensures ReservedAt(p.(store := AfterAnswers(p.store, plan.parts, refused, k)), doc, before)
  {
    hide ReservedAt, Cleared, Marked, Marks, LoopOrder, Describes;
    if k > 0 {
      ReservedThrough(p, plan, doc, before, refused, k - 1, libs);
      var s := p.(store := AfterAnswers(p.store, plan.parts, refused, k - 1));
      var members := plan.parts[k];
      var cleared := p.(store := Cleared(s.store, members));
      PlannedDescribesStill(p, plan, refused, k - 1, k, libs);
      MarkedMarks(s.store, members);
      ReservedStep(s, cleared, doc, before);
      MarkedMarks(cleared.store, members);
      ReservedStep(cleared, p.(store := Marked(cleared.store, members)), doc, before);
    } else {
      assert p.(store := AfterAnswers(p.store, plan.parts, refused, k)) == p;
    }
  }

  // The planned artifacts' objects are metadata dictionaries at every turn.
  lemma {:induction false} PlannedDescribesStill(p: Sink, plan: Plan, refused: set<nat>, k: nat, i: nat,
                                                 libs: Libraries)
    requires Unstarted(p, plan, libs) && k < |plan.parts| && i < |plan.parts|
    ensures Describes(AfterAnswers(p.store, plan.parts, refused, k), plan.parts[i])
  {
    hide Cleared, Marked, Describes, StoreTouched, StagedOk, EventsSound, PlanSound;
    if k == 0 {
      PlannedDescribes(p, plan, i, libs);
    } else {
      PlannedDescribesStill(p, plan, refused, k - 1, i, libs);
      var before := AfterAnswers(p.store, plan.parts, refused, k - 1);
      var cleared := Cleared(before, plan.parts[k]);
      ClearedTouches(before, plan.parts[k]);
      TouchedDescribes(before, cleared, plan.parts[k], plan.parts[i]);
      MarkedTouches(cleared, plan.parts[k]);
      TouchedDescribes(cleared, Marked(cleared, plan.parts[k]), plan.parts[k], plan.parts[i]);
    }
  }

  lemma TouchedDescribes(a: Store, b: Store, touched: seq<Member>, members: seq<Member>)
    requires StoreTouched(a, b, touched) && Describes(a, members)
    ensures Describes(b, members)
  {
  }

  // ----- flags once the sink is closed ----------------------------------------------------------

  // A staged artifact is unflagged exactly when an attached part holds it.
  ghost predicate FlagsTrue(s: Sink) {
    forall x :: x in AllStaged(s.groups) ==> (FlagAt(s.store, x.metadata) <==> !Held(s, x))
  }

  ghost predicate ClosesTrue(s: Sink, manifestFilename: string, doc: Doc, known: Store, libs: Libraries) {
    forall env: nat -> Fate ::
      var u := Finish(s, manifestFilename, doc, known, libs, env).0; u.closed ==> FlagsTrue(u)
  }

  // A finish that makes a plan, whichever it is, and closes the sink leaves true flags
  // whatever the callback answers exactly when the plan stands apart.
  lemma ClosesTrueExactlyWhenApart(s: Sink, manifestFilename: string, doc: Doc, known: Store, libs: Libraries)
    requires Orderly(s, libs) && s.plan.None? && !s.closed
    ensures ClosesTrue(s, manifestFilename, doc, known, libs) <==> PlansApart(s, manifestFilename, doc, known, libs)
  {
    hide Finish, Prepare, Held, AllStaged, Apart, Outgrown, PlanOrder, StagedOk, NamedOnce, Accepted, PlanTruth;
    if PlansApart(s, manifestFilename, doc, known, libs) {
      forall env: nat -> Fate
        ensures var u := Finish(s, manifestFilename, doc, known, libs, env).0; u.closed ==> FlagsTrue(u)
      {
        FinishKeeps(s, manifestFilename, doc, known, libs, env);
        ClosedIsTrue(Finish(s, manifestFilename, doc, known, libs, env).0, libs);
      }
    } else {
      var p := Planned(s, manifestFilename, doc, known, libs);
      PlannedIsUnstarted(s, manifestFilename, doc, known, libs);
      var refused, x, y := SharingShows(s, p.plan.value);
      AnsweredFinish(s, manifestFilename, doc, known, refused, libs);
      var u := Finish(s, manifestFilename, doc, known, libs, Answering(refused)).0;
      assert Held(u, x) && !Held(u, y);
      assert !FlagsTrue(u);
    }
  }

  lemma ClosedIsTrue(u: Sink, libs: Libraries)
    requires Inv(u, libs)
    ensures u.closed ==> FlagsTrue(u)
  {
    hide Orderly, PlanTruth, Held, Shipped;
    if u.closed {
      forall x | x in AllStaged(u.groups) ensures FlagAt(u.store, x.metadata) <==> !Held(u, x) {
        HeldIffShipped(u, x, libs);
      }
    }
  }
}
