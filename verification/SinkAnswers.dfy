/** The finish that makes a plan, under any answers to its parts: what it leaves in the
    metadata, the downloads and the warnings. */
module SinkAnswers {
  import opened Basics
  import opened Json
  import opened ZipLayout
  import opened Manifest
  import opened Packing
  import opened SinkModel
  import opened SinkInvariants
  import opened SinkOrder

  // ----- an artifact is in one part at most -------------------------------------------------

  lemma {:induction false} LiveAtMost(members: seq<Member>, failed: set<Metadata>, x: Member)
    ensures multiset(Live(members, failed))[x] <= multiset(members)[x]
  {
    if members != [] {
      var n := |members| - 1;
      LiveAtMost(members[..n], failed, x);
      assert members == members[..n] + [members[n]];
    }
  }

  lemma {:induction false} KeptAtMost(groups: seq<Staged>, failed: set<Metadata>, maxBytes: nat, x: Member)
    ensures multiset(Flatten(Kept(groups, failed, maxBytes)))[x] <= multiset(AllStaged(groups))[x]
  {
    hide Live, Size;
    if groups != [] {
      var n := |groups| - 1;
      var rest, live := Kept(groups[..n], failed, maxBytes), Live(groups[n].members, failed);
      KeptAtMost(groups[..n], failed, maxBytes, x);
      LiveAtMost(groups[n].members, failed, x);
      AllStagedSnoc(groups[..n], groups[n]);
      assert groups == groups[..n] + [groups[n]];
      FlattenSnoc(rest, live);
    }
  }

  lemma {:induction false} InTwoParts(parts: seq<seq<Member>>, i: nat, j: nat, x: Member)
    requires i < j < |parts| && x in parts[i] && x in parts[j]
    ensures multiset(Flatten(parts))[x] >= 2
  {
    assert Flatten(parts) == parts[0] + Flatten(parts[1..]);
    if i == 0 {
      assert x in parts[1..][j - 1];
      InFlatten(parts[1..], x);
    } else {
      InTwoParts(parts[1..], i - 1, j - 1, x);
    }
  }

  lemma InOnePart(s: Sink, parts: seq<seq<Member>>, i: nat, j: nat, x: Member)
    requires NamedOnce(s) && Flatten(parts) == Flatten(PlanningGroups(s))
    requires i < |parts| && j < |parts| && x in parts[i] && x in parts[j]
    ensures i == j
  {
    hide Kept;
    if i != j {
      InTwoParts(parts, Min(i, j), Max(i, j), x);
      KeptAtMost(s.groups, s.addFailed, s.config.maxBytes, x);
      assert false;
    }
  }

  // ----- no part but the first is empty --------------------------------------------------

  lemma {:induction false} OpenedPartsHold(groups: seq<Group>, first: seq<ZipInfo>, maxBytes: nat, i: nat)
    requires forall k :: 0 <= k < |groups| ==> groups[k] != []
    requires 0 < i < |Pack(groups, first, maxBytes)|
    ensures Pack(groups, first, maxBytes)[i] != []
  {
    hide Size;
    var n := |groups| - 1;
    if i < |Pack(groups[..n], first, maxBytes)| { OpenedPartsHold(groups[..n], first, maxBytes, i); }
  }

  lemma {:induction false} KeptHold(groups: seq<Staged>, failed: set<Metadata>, maxBytes: nat)
    ensures forall k :: 0 <= k < |Kept(groups, failed, maxBytes)| ==> Kept(groups, failed, maxBytes)[k] != []
  {
    hide Size, Live;
    if groups != [] { KeptHold(groups[..|groups| - 1], failed, maxBytes); }
  }

  // A group that fits opens no part of its own where nothing came before it.
  lemma {:induction false} FirstPartHolds(groups: seq<Group>, maxBytes: nat)
    requires groups != []
    requires forall k :: 0 <= k < |groups| ==> groups[k] != [] && Size(MemberInfos(groups[k])) <= maxBytes
    ensures Pack(groups, [], maxBytes)[0] != []
  {
    hide Size;
    var n := |groups| - 1;
    if n == 0 {
      assert groups[..0] == [] && [] + MemberInfos(groups[0]) == MemberInfos(groups[0]) && [] + groups[0] == groups[0];
    } else {
      FirstPartHolds(groups[..n], maxBytes);
    }
  }

  lemma PlannedPartsHold(groups: seq<Group>, name: string, manifest: Json, maxBytes: nat, libs: Libraries, i: nat)
    requires forall k :: 0 <= k < |groups| ==> groups[k] != [] && Size(MemberInfos(groups[k])) <= maxBytes
    requires 0 < i < |PlannedParts(groups, name, manifest, maxBytes, libs)|
    ensures PlannedParts(groups, name, manifest, maxBytes, libs)[i] != []
  {
    hide Size, JsonBytes, Pack, BoundInfo;
    var parts := PlannedParts(groups, name, manifest, maxBytes, libs);
    var info, bound := CompressedInfo(name, JsonBytes(manifest), libs), BoundInfo(name, manifest);
    var alone := Pack(groups, [], maxBytes);
    if parts == alone {
      OpenedPartsHold(groups, [], maxBytes, i);
    } else if parts == Pack(groups, [bound], maxBytes) {
      OpenedPartsHold(groups, [bound], maxBytes, i);
    } else if parts == [[]] + alone {
      if i > 1 {
        OpenedPartsHold(groups, [], maxBytes, i - 1);
      } else {
        assert groups != [] by { if groups == [] { OnePartOfNothing(info, maxBytes); } }
        FirstPartHolds(groups, maxBytes);
      }
    }
  }

  lemma OnePartOfNothing(info: ZipInfo, maxBytes: nat)
    ensures |Pack([], [info], maxBytes)| == 1
  {
  }

  // ----- a fresh plan ------------------------------------------------------------------------

  // A plan just made, nothing of it attempted.
  ghost predicate Unstarted(p: Sink, plan: Plan, libs: Libraries) {
    && p.plan == Some(plan) && LoopOrder(p, plan, libs) && !p.closed
    && p.events == [] && p.attempted == {} && p.downloads == []
    && forall i :: 0 < i < |plan.parts| ==> plan.parts[i] != []
  }

  // The state a call of `finish` plans in, and the plan it makes.
  function Planned(s: Sink, manifestFilename: string, doc: Doc, known: Store, libs: Libraries): (p: Sink)
    ensures p.plan.Some?
  {
    Prepare(Begun(s, known), manifestFilename, doc, libs)
  }

  lemma PlannedIsUnstarted(s: Sink, manifestFilename: string, doc: Doc, known: Store, libs: Libraries)
    requires Orderly(s, libs) && s.plan.None? && !s.closed
    ensures var p := Planned(s, manifestFilename, doc, known, libs);
      && Unstarted(p, p.plan.value, libs) && p.groups == s.groups && p.config == s.config
      && Flatten(p.plan.value.parts) == Flatten(PlanningGroups(s))
      && forall w :: w in p.warnings ==> !w.ManifestOutgrew?
  {
    hide PlannedParts, PlanOrder, StagedOk, NamedOnce, Kept, Dropped, Resolve, ManifestAttachable, ManifestPath, Size;
    var begun := Begun(s, known);
    var p := Planned(s, manifestFilename, doc, known, libs);
    BegunOrders(s, known, libs);
    PrepareOrders(begun, manifestFilename, doc, libs);
    var manifest, name := Resolve(doc, AfterPlan(begun).store), ManifestPath(s.config, manifestFilename);
    var groups := PlanningGroups(s);
    KeptFits(s.groups, s.addFailed, s.config.maxBytes);
    KeptHold(s.groups, s.addFailed, s.config.maxBytes);
    PlannedPartsOk(groups, name, manifest, s.config.maxBytes, libs);
    forall i | 0 < i < |p.plan.value.parts| ensures p.plan.value.parts[i] != [] {
      PlannedPartsHold(groups, name, manifest, s.config.maxBytes, libs, i);
    }
  }

  lemma UnstartedOrder(p: Sink, plan: Plan, libs: Libraries)
    requires Unstarted(p, plan, libs)
    ensures LoopOrder(p, plan, libs) && |plan.parts| > 0 && p.plan == Some(plan)
  {
    hide StagedOk, EventsSound, Fits;
  }

  lemma OpenFinish(s: Sink, manifestFilename: string, doc: Doc, known: Store, libs: Libraries, env: nat -> Fate)
    requires Orderly(s, libs) && s.plan.None? && !s.closed
    ensures var p := Planned(s, manifestFilename, doc, known, libs);
      && Finish(s, manifestFilename, doc, known, libs, env).0 == FinishFrom(p, p.plan.value, doc, 0, libs, env).0
      && LoopOrder(p, p.plan.value, libs)
      && Finish(s, manifestFilename, doc, known, libs, env).0.plan == p.plan
  {
    hide FinishFrom, PlanOrder, StagedOk, NamedOnce, Prepare;
    var p := Planned(s, manifestFilename, doc, known, libs);
    BegunOrders(s, known, libs);
    PrepareOrders(Begun(s, known), manifestFilename, doc, libs);
    LoopKeepsStaging(p, doc, libs, env);
  }

  // ----- parts 2..n, one after another ------------------------------------------------------

  // The metadata once parts 2..k+1 have their answers: each part's flags cleared for the
  // attempt, and set again if it was refused.
  function AfterAnswers(store: Store, parts: seq<seq<Member>>, refused: set<nat>, k: nat): (r: Store)
    requires k < |parts|
    ensures r.Keys == store.Keys
  {
    if k == 0 then store
    else
      var cleared := Cleared(AfterAnswers(store, parts, refused, k - 1), parts[k]);
      if k in refused then Marked(cleared, parts[k]) else cleared
  }

  predicate Raises(fate: Fate) { fate.AttachRaises? || fate.BuildRaises? }

  // The parts of a fresh plan that these fates refuse: a part is the next attempt after the
  // parts before it.
  function RefusedBy(env: nat -> Fate, n: nat): set<nat> {
    set i: nat | i < n && RefusedAt(env, i)
  }

  predicate RefusedAt(env: nat -> Fate, i: nat) { i > 0 && env(i - 1).Refuses? }

  // Fates that refuse these parts and accept all others.
  function Answering(refused: set<nat>): nat -> Fate {
    (k: nat) => if k + 1 in refused then Refuses else Attaches
  }

  // Parts 2..n of a plan.
  predicate Others(refused: set<nat>, n: nat) { forall i :: i in refused ==> 0 < i < n }

  lemma RefusedAreRefused(refused: set<nat>, n: nat)
    requires Others(refused, n)
    ensures RefusedBy(Answering(refused), n) == refused
  {
    forall i: nat | i < n ensures RefusedAt(Answering(refused), i) <==> i in refused {}
  }

  // Parts 2..k+1 have their answers, and no other has.
  ghost predicate AnsweredTo(p: Sink, s: Sink, plan: Plan, refused: set<nat>, k: nat) {
    && k < |plan.parts| && |s.events| == k
    && s.plan == p.plan && s.config == p.config && s.groups == p.groups && s.addFailed == p.addFailed
    && s.warnings == p.warnings && s.closed == p.closed
    && s.store == AfterAnswers(p.store, plan.parts, refused, k)
    && (forall i :: 0 < i <= k ==> PartAnswered(s, plan, refused, i))
    && (forall name :: name in s.attempted || name in s.downloads ==> NamesPart(s, plan, k, name))
  }

  ghost predicate PartAnswered(s: Sink, plan: Plan, refused: set<nat>, i: int) {
    i >= 0 && NameAt(s, plan, i) in s.attempted && (NameAt(s, plan, i) in s.downloads <==> i !in refused)
  }

  ghost predicate NamesPart(s: Sink, plan: Plan, k: nat, name: string) {
    exists i: nat :: 0 < i <= k && name == NameAt(s, plan, i)
  }

  lemma NothingAnswered(p: Sink, plan: Plan, refused: set<nat>, libs: Libraries)
    requires Unstarted(p, plan, libs)
    ensures AnsweredTo(p, p, plan, refused, 0)
  {
  }

  lemma NotYetNamed(p: Sink, s: Sink, plan: Plan, refused: set<nat>, k: nat, i: nat)
    requires AnsweredTo(p, s, plan, refused, k) && i < |plan.parts| && (i > k || i == 0)
    ensures NameAt(s, plan, i) !in s.attempted && NameAt(s, plan, i) !in s.downloads
  {
    hide PartFilename, AfterAnswers, PartAnswered;
    var name := NameAt(s, plan, i);
    if name in s.attempted || name in s.downloads {
      assert NamesPart(s, plan, k, name);
      var j: nat :| 0 < j <= k && name == NameAt(s, plan, j);
      OtherNames(s, plan, i, j);
      assert false;
    }
  }

  lemma ClearedTwice(store: Store, members: seq<Member>)
    ensures Cleared(Cleared(store, members), members) == Cleared(store, members)
  {
    forall m | m in store { DropDrop(store[m], FLAG); }
  }

  // A part without the manifest: it is answered or what raised stops the finish.
  lemma AnsweredTurn(s: Sink, doc: Doc, index: nat, name: string, members: seq<Member>, manifestFilename: string,
                     libs: Libraries, fate: Fate)
    requires members != [] && WithinCap(MemberInfos(members), s.config.maxBytes)
    requires forall x :: x in members ==> SoundMember(x, libs)
    ensures var (u, going) := AttemptPending(s, doc, index, name, members, None, manifestFilename, libs, fate);
      && (going <==> !Raises(fate)) && u.warnings == s.warnings
      && (going ==>
            && |u.events| == |s.events| + 1
            && u.plan == s.plan && u.config == s.config && u.groups == s.groups && u.addFailed == s.addFailed
            && u.closed == s.closed && u.attempted == s.attempted + {name}
            && u.downloads == (if fate.Refuses? then s.downloads else s.downloads + [name])
            && u.store == (if fate.Refuses? then Marked(Cleared(s.store, members), members)
                           else Cleared(s.store, members)))
  {
    hide BuildPart, Cleared, Marked, Size, SoundMember;
    var pending := s.(store := Cleared(s.store, members));
    EventIsFaithful(pending, index, name, None, None, members, libs, fate);
    ClearedTwice(s.store, members);
  }

  lemma OneAnswer(p: Sink, s: Sink, plan: Plan, doc: Doc, k: nat, libs: Libraries, env: nat -> Fate)
    requires Unstarted(p, plan, libs) && LoopOrder(s, plan, libs) && k + 1 < |plan.parts|
    requires AnsweredTo(p, s, plan, RefusedBy(env, |plan.parts|), k)
    ensures var (u, going) := FinishPart(s, plan, doc, k + 1, libs, env);
      && (going <==> !Raises(env(k))) && u.warnings == p.warnings && LoopOrder(u, plan, libs)
      && (going ==> AnsweredTo(p, u, plan, RefusedBy(env, |plan.parts|), k + 1))
  {
    hide PartFilename, AttemptPending, LoopOrder, Cleared, Marked, WithinCap, SoundMember;
    var refused, i := RefusedBy(env, |plan.parts|), k + 1;
    var members := plan.parts[i];
    NotYetNamed(p, s, plan, refused, k, i);
    PlannedAreStored(s, plan, i, libs);
    AnsweredTurn(s, doc, i, NameAt(s, plan, i), members, plan.manifestFilename, libs, env(k));
    FinishPartOrders(s, plan, doc, i, libs, env);
    var (u, going) := FinishPart(s, plan, doc, i, libs, env);
    if going { OneMorePart(p, s, u, plan, refused, k); }
  }

  lemma OneMorePart(p: Sink, s: Sink, u: Sink, plan: Plan, refused: set<nat>, k: nat)
    requires AnsweredTo(p, s, plan, refused, k) && k + 1 < |plan.parts|
    requires |u.events| == k + 1 && u.warnings == s.warnings && u.closed == s.closed
    requires u.plan == s.plan && u.config == s.config && u.groups == s.groups && u.addFailed == s.addFailed
    requires var (i, name) := (k + 1, NameAt(s, plan, k + 1));
      && u.attempted == s.attempted + {name}
      && u.downloads == (if i in refused then s.downloads else s.downloads + [name])
      && u.store == AfterAnswers(p.store, plan.parts, refused, i)
    ensures AnsweredTo(p, u, plan, refused, k + 1)
  {
    hide PartFilename, AfterAnswers;
    NotYetNamed(p, s, plan, refused, k, k + 1);
    forall i | 0 < i <= k + 1 ensures PartAnswered(u, plan, refused, i) {
      assert NameAt(u, plan, i) == NameAt(s, plan, i);
      if i <= k {
        assert PartAnswered(s, plan, refused, i);
        OtherNames(s, plan, i, k + 1);
      }
    }
    forall name | name in u.attempted || name in u.downloads ensures NamesPart(u, plan, k + 1, name) {
      if name in s.attempted || name in s.downloads {
        assert NamesPart(s, plan, k, name);
        var i: nat :| 0 < i <= k && name == NameAt(s, plan, i);
        assert name == NameAt(u, plan, i);
      } else {
        assert name == NameAt(u, plan, k + 1);
      }
    }
  }

  // Up to part 1: every other part has the answer its fate gives it, or one of them raised.
  lemma {:induction false} OthersAnswered(p: Sink, s: Sink, plan: Plan, doc: Doc, k: nat, libs: Libraries,
                                          env: nat -> Fate) returns (t: Sink, stopped: bool)
    requires Unstarted(p, plan, libs) && LoopOrder(s, plan, libs)
    requires AnsweredTo(p, s, plan, RefusedBy(env, |plan.parts|), k)
    ensures var n := |plan.parts|;
      && (!stopped ==>
            && AnsweredTo(p, t, plan, RefusedBy(env, n), n - 1) && LoopOrder(t, plan, libs)
            && FinishFrom(s, plan, doc, k, libs, env) == FinishFrom(t, plan, doc, n - 1, libs, env))
      && (stopped ==> FinishFrom(s, plan, doc, k, libs, env) == (t, false) && t.warnings == p.warnings)
      && ((forall j: nat :: !Raises(env(j))) ==> !stopped)
    decreases |plan.parts| - k
  {
    hide AnsweredTo, LoopOrder, FinishPart, RefusedBy, Unstarted;
    var n := |plan.parts|;
    AnsweredBound(p, s, plan, RefusedBy(env, n), k);
    if k + 1 == n {
      t, stopped := s, false;
    } else {
      OneAnswer(p, s, plan, doc, k, libs, env);
      var (u, going) := FinishPart(s, plan, doc, k + 1, libs, env);
      assert Position(k, n) == k + 1;
      if going {
        t, stopped := OthersAnswered(p, u, plan, doc, k + 1, libs, env);
      } else {
        t, stopped := u, true;
      }
    }
  }

  lemma AnsweredBound(p: Sink, s: Sink, plan: Plan, refused: set<nat>, k: nat)
    requires AnsweredTo(p, s, plan, refused, k)
    ensures k < |plan.parts|
  {
  }

  // ----- part 1 ---------------------------------------------------------------------------

  // With these parts refused, the manifest no longer fits beside part 1's members.
  predicate Outgrown(p: Sink, plan: Plan, doc: Doc, refused: set<nat>, libs: Libraries)
    requires |plan.parts| > 0
  {
    var store := Cleared(AfterAnswers(p.store, plan.parts, refused, |plan.parts| - 1), plan.parts[0]);
    plan.manifestName.Some?
    && !FitsNow(plan.manifestName.value, Resolve(doc, store), plan.parts[0], p.config.maxBytes, libs)
  }

  lemma PendingWarns(s: Sink, doc: Doc, index: nat, name: string, members: seq<Member>, manifestName: Option<string>,
                     manifestFilename: string, libs: Libraries, fate: Fate)
    ensures AttemptPending(s, doc, index, name, members, manifestName, manifestFilename, libs, fate).0.warnings
         == s.warnings
          + if manifestName.Some? && !FitsNow(manifestName.value, Resolve(doc, Cleared(s.store, members)), members,
                                              s.config.maxBytes, libs)
            then [ManifestOutgrew(manifestFilename)] else []
  {
    hide FitsNow, Resolve, Cleared, Marked, EventOf;
    assert s.warnings + [] == s.warnings;
  }

  // The last turn warns exactly when the manifest has outgrown its part.
  lemma LastTurnWarns(p: Sink, t: Sink, plan: Plan, doc: Doc, refused: set<nat>, libs: Libraries, env: nat -> Fate)
    requires Unstarted(p, plan, libs) && |plan.parts| > 0 && AnsweredTo(p, t, plan, refused, |plan.parts| - 1)
    ensures FinishFrom(t, plan, doc, |plan.parts| - 1, libs, env).0.warnings
         == p.warnings + if Outgrown(p, plan, doc, refused, libs) then [ManifestOutgrew(plan.manifestFilename)] else []
  {
    hide PartFilename, FitsNow, Resolve, Cleared, AfterAnswers, LoopOrder, AttemptPending;
    var n := |plan.parts|;
    NotYetNamed(p, t, plan, refused, n - 1, 0);
    assert Position(n - 1, n) == 0;
    PendingWarns(t, doc, 0, NameAt(t, plan, 0), plan.parts[0], plan.manifestName, plan.manifestFilename, libs,
                 env(|t.events|));
    var (u, going) := FinishPart(t, plan, doc, 0, libs, env);
    if going { assert FinishFrom(u, plan, doc, n, libs, env) == (u.(finished := true, closed := true), true); }
  }

  // Accepted, it is attached if there is anything to attach, with the manifest if that fits.
  lemma LastTurnAttaches(p: Sink, t: Sink, plan: Plan, doc: Doc, refused: set<nat>, libs: Libraries, env: nat -> Fate)
    requires Unstarted(p, plan, libs) && |plan.parts| > 0 && AnsweredTo(p, t, plan, refused, |plan.parts| - 1)
    requires LoopOrder(t, plan, libs) && env(|plan.parts| - 1).Attaches?
    ensures var (u, done) := FinishFrom(t, plan, doc, |plan.parts| - 1, libs, env);
      var name := NameAt(t, plan, 0);
      && done && u.closed && u.config == t.config && u.groups == t.groups
      && (u.downloads == t.downloads || u.downloads == t.downloads + [name])
      && (plan.parts[0] != [] ==> name in u.downloads)
      && (plan.manifestName.Some? && !Outgrown(p, plan, doc, refused, libs) ==>
            exists e :: e in u.events && e.outcome.Attached? && e.doc.Some?)
  {
    hide PartFilename, AfterAnswers, LoopOrder, AttemptPending;
    var n := |plan.parts|;
    NotYetNamed(p, t, plan, refused, n - 1, 0);
    PlannedAreStored(t, plan, 0, libs);
    assert Position(n - 1, n) == 0;
    var (u, going) := FinishPart(t, plan, doc, 0, libs, env);
    AcceptedTurn(t, doc, 0, NameAt(t, plan, 0), plan.parts[0], plan.manifestName, plan.manifestFilename, libs,
                 env(n - 1));
    assert FinishFrom(u, plan, doc, n, libs, env) == (u.(finished := true, closed := true), true);
  }

  lemma AcceptedTurn(s: Sink, doc: Doc, index: nat, name: string, members: seq<Member>, manifestName: Option<string>,
                     manifestFilename: string, libs: Libraries, fate: Fate)
    requires WithinCap(MemberInfos(members), s.config.maxBytes) && fate.Attaches?
    requires forall x :: x in members ==> SoundMember(x, libs)
    ensures var (u, going) :=
        AttemptPending(s, doc, index, name, members, manifestName, manifestFilename, libs, fate);
      && going && u.config == s.config && u.groups == s.groups && u.plan == s.plan
      && (u.downloads == s.downloads || u.downloads == s.downloads + [name])
      && (members != [] ==> name in u.downloads)
      && (manifestName.Some? && FitsNow(manifestName.value, Resolve(doc, Cleared(s.store, members)), members,
                                        s.config.maxBytes, libs) ==>
            exists e :: e in u.events && e.outcome.Attached? && e.doc.Some?)
  {
    hide BuildPart, Cleared, Size, SoundMember, FitsNow, Resolve, ManifestText, EventOf, Attempt;
    var pending := s.(store := Cleared(s.store, members));
    if manifestName.Some?
       && FitsNow(manifestName.value, Resolve(doc, pending.store), members, s.config.maxBytes, libs) {
      AcceptedAttempt(pending, index, name, Some(doc), manifestName, members, libs, fate);
    } else if members != [] {
      var warned := if manifestName.Some? then pending.(warnings := s.warnings + [ManifestOutgrew(manifestFilename)])
                    else pending;
      AcceptedAttempt(warned, index, name, None, None, members, libs, fate);
    }
  }

  lemma AcceptedAttempt(s: Sink, index: nat, name: string, doc: Option<Doc>, manifestName: Option<string>,
                        members: seq<Member>, libs: Libraries, fate: Fate)
    requires forall x :: x in members ==> SoundMember(x, libs)
    requires fate.Attaches? && (doc.Some? <==> manifestName.Some?)
    requires if doc.Some?
             then FitsNow(manifestName.value, Resolve(doc.value, s.store), members, s.config.maxBytes, libs)
             else members != [] && Size(MemberInfos(members)) <= s.config.maxBytes
    ensures var path := if doc.Some? then manifestName.value else "";
      var (u, going) := Attempt(s, EventOf(s, index, name, doc, path, members, libs, fate));
      && going && u.config == s.config && u.groups == s.groups && u.plan == s.plan
      && u.downloads == s.downloads + [name]
      && (doc.Some? ==> exists e :: e in u.events && e.outcome.Attached? && e.doc.Some?)
  {
    hide BuildPart, Cleared, Marked, Size, SoundMember, FitsNow, Resolve, ManifestText;
    EventIsFaithful(s, index, name, doc, manifestName, members, libs, fate);
    var path := if doc.Some? then manifestName.value else "";
    var e := EventOf(s, index, name, doc, path, members, libs, fate);
    assert Attempt(s, e).0.events[|s.events|] == e;
  }
}
