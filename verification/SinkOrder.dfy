/** What every run of the zip sink keeps, however its artifacts share their metadata: the
    plan, the answers and the log stay in order, and no part passes the cap. */
module SinkOrder {
  import opened Basics
  import opened Json
  import opened ZipLayout
  import opened Manifest
  import opened Packing
  import opened SinkModel
  import opened SinkInvariants

  // ----- a plan is sound when it is made --------------------------------------------

  lemma {:induction false} AllStagedSnoc(groups: seq<Staged>, g: Staged)
    ensures AllStaged(groups + [g]) == AllStaged(groups) + g.members
  {
    if groups == [] {
      assert [] + [g] == [g] && [g][1..] == [];
      assert AllStaged([g]) == g.members + AllStaged([]);
    } else {
      AllStagedSnoc(groups[1..], g);
      assert (groups + [g])[1..] == groups[1..] + [g];
    }
  }

  // Live members are the ones not failed, each kept as often as it was there.
  lemma {:induction false} InLive(members: seq<Member>, failed: set<Metadata>, x: Member)
    ensures x in Live(members, failed) <==> x in members && x.metadata !in failed
  {
    if members != [] {
      var n := |members| - 1;
      InLive(members[..n], failed, x);
      assert members == members[..n] + [members[n]];
    }
  }

  // What is kept fits, is staged and is not failed.
  lemma {:induction false} KeptFits(groups: seq<Staged>, failed: set<Metadata>, maxBytes: nat)
    ensures forall g :: g in Kept(groups, failed, maxBytes) ==> Size(MemberInfos(g)) <= maxBytes
  {
    hide Size, Live;
    if groups != [] { KeptFits(groups[..|groups| - 1], failed, maxBytes); }
  }

  lemma {:induction false} KeptIsStaged(groups: seq<Staged>, failed: set<Metadata>, maxBytes: nat, x: Member)
    requires x in Flatten(Kept(groups, failed, maxBytes))
    ensures x in AllStaged(groups) && x.metadata !in failed
  {
    hide Size;
    if groups != [] {
      var n := |groups| - 1;
      var rest := Kept(groups[..n], failed, maxBytes);
      var live := Live(groups[n].members, failed);
      AllStagedSnoc(groups[..n], groups[n]);
      assert groups == groups[..n] + [groups[n]];
      InLive(groups[n].members, failed, x);
      FlattenSnoc(rest, live);
      if x in Flatten(rest) { KeptIsStaged(groups[..n], failed, maxBytes, x); }
    }
  }

  lemma {:induction false} KeptOrDropped(groups: seq<Staged>, failed: set<Metadata>, maxBytes: nat, x: Member)
    requires x in AllStaged(groups) && x.metadata !in failed
    ensures x in Flatten(Kept(groups, failed, maxBytes)) || x in Flatten(Dropped(groups, failed, maxBytes))
  {
    var n := |groups| - 1;
    var live := Live(groups[n].members, failed);
    AllStagedSnoc(groups[..n], groups[n]);
    assert groups == groups[..n] + [groups[n]];
    FlattenSnoc(Kept(groups[..n], failed, maxBytes), live);
    FlattenSnoc(Dropped(groups[..n], failed, maxBytes), live);
    if x in AllStaged(groups[..n]) {
      KeptOrDropped(groups[..n], failed, maxBytes, x);
    } else {
      InLive(groups[n].members, failed, x);
    }
  }

  // A device group is dropped exactly when its live members alone pass the cap.
  lemma {:induction false} DroppedIffTooLarge(groups: seq<Staged>, failed: set<Metadata>, maxBytes: nat, g: Group)
    ensures g in Dropped(groups, failed, maxBytes)
       <==> g != [] && Size(MemberInfos(g)) > maxBytes
              && exists i :: 0 <= i < |groups| && g == Live(groups[i].members, failed)
    ensures g in Kept(groups, failed, maxBytes)
       <==> g != [] && Size(MemberInfos(g)) <= maxBytes
              && exists i :: 0 <= i < |groups| && g == Live(groups[i].members, failed)
  {
    hide Size;
    if groups != [] {
      var n := |groups| - 1;
      DroppedIffTooLarge(groups[..n], failed, maxBytes, g);
      assert forall i :: 0 <= i < n ==> groups[..n][i] == groups[i];
      assert (exists i :: 0 <= i < |groups| && g == Live(groups[i].members, failed))
        <==> (g == Live(groups[n].members, failed)
              || exists i :: 0 <= i < n && g == Live(groups[..n][i].members, failed));
    }
  }

  lemma {:induction false} InFlatten(parts: seq<seq<Member>>, x: Member)
    ensures x in Flatten(parts) <==> InParts(parts, x)
  {
    if parts != [] {
      InFlatten(parts[1..], x);
      if InParts(parts[1..], x) {
        var i :| 0 <= i < |parts[1..]| && x in parts[1..][i];
        assert x in parts[i + 1];
      }
      if InParts(parts, x) && x !in parts[0] {
        var i :| 0 <= i < |parts| && x in parts[i];
        assert parts[1..][i - 1] == parts[i];
      }
      assert x in parts[0] ==> InParts(parts, x);
    }
  }

  // However the manifest turned out, the parts hold exactly the kept groups, within the cap.
  lemma PlannedPartsOk(groups: seq<Group>, name: string, manifest: Json, maxBytes: nat, libs: Libraries)
    requires forall g :: g in groups ==> Size(MemberInfos(g)) <= maxBytes
    ensures var parts := PlannedParts(groups, name, manifest, maxBytes, libs);
            Flatten(parts) == Flatten(groups) && Fits(parts, [], maxBytes)
  {
    hide Size, JsonBytes, Pack;
    var info, bound := CompressedInfo(name, JsonBytes(manifest), libs), BoundInfo(name, manifest);
    PackIsLossless(groups, [], maxBytes);
    PackIsLossless(groups, [info], maxBytes);
    PackIsLossless(groups, [bound], maxBytes);
    PackFits(groups, [], maxBytes);
    if Size([info]) <= maxBytes {
      PackFits(groups, [info], maxBytes);
      FitsWithoutLead(Pack(groups, [info], maxBytes), [info], maxBytes);
    }
    if Size([bound]) <= maxBytes {
      PackFits(groups, [bound], maxBytes);
      FitsWithoutLead(Pack(groups, [bound], maxBytes), [bound], maxBytes);
    }
    EmptyFirstPart(Pack(groups, [], maxBytes), maxBytes);
  }

  lemma FitsWithoutLead(parts: seq<seq<Member>>, first: seq<ZipInfo>, maxBytes: nat)
    requires Fits(parts, first, maxBytes)
    ensures Fits(parts, [], maxBytes)
  {
    hide Size;
    forall i | 0 <= i < |parts|
      ensures WithinCap(Lead([], i) + MemberInfos(parts[i]), maxBytes)
    {
      var infos := MemberInfos(parts[i]);
      assert WithinCap(Lead(first, i) + infos, maxBytes);
      SizeOfAppend(Lead(first, i), infos);
      assert [] + infos == infos;
    }
  }

  lemma EmptyFirstPart(parts: seq<seq<Member>>, maxBytes: nat)
    requires Fits(parts, [], maxBytes)
    ensures Fits([[]] + parts, [], maxBytes) && Flatten([[]] + parts) == Flatten(parts)
  {
    hide Size;
    var all := [[]] + parts;
    forall i | 0 <= i < |all|
      ensures WithinCap(Lead([], i) + MemberInfos(all[i]), maxBytes)
    {
      if i > 0 { assert WithinCap(Lead([], i - 1) + MemberInfos(parts[i - 1]), maxBytes); }
    }
    assert all[1..] == parts;
  }

  // ----- preparing ------------------------------------------------------------------

  ghost predicate Blank(s: Sink) {
    s.plan.None? && s.downloads == [] && s.attempted == {} && s.confirmed == {} && s.events == [] && !s.finished
  }

  lemma AfterPlanKeeps(s: Sink, libs: Libraries)
    requires StagedOk(s, libs) && Blank(s)
    ensures var p := AfterPlan(s);
            && StagedOk(p, libs) && Blank(p) && p.store.Keys == s.store.Keys
            && forall x :: x in Flatten(Dropped(s.groups, s.addFailed, s.config.maxBytes)) && x.metadata in s.store ==>
                 FlagAt(p.store, x.metadata)
  {
    var dropped := Flatten(Dropped(s.groups, s.addFailed, s.config.maxBytes));
    MarkedTouches(s.store, dropped);
    forall m | m in s.addFailed
      ensures FlagAt(AfterPlan(s).store, m)
    {
      MarkedAt(s.store, dropped, m);
    }
  }

  lemma PlanForSound(s: Sink, p: Sink, manifestFilename: string, manifest: Json, libs: Libraries)
    requires p.groups == s.groups && p.addFailed == s.addFailed && p.config == s.config
    ensures var plan := PlanFor(s.config, PlanningGroups(s), manifestFilename, manifest, libs);
      PlanSound(p, plan) && forall x :: InParts(plan.parts, x) <==> x in Flatten(PlanningGroups(s))
  {
    hide PlannedParts, ManifestAttachable, ManifestPath, Fits;
    var kept := PlanningGroups(s);
    var parts := PlanFor(s.config, kept, manifestFilename, manifest, libs).parts;
    KeptFits(s.groups, s.addFailed, s.config.maxBytes);
    PlannedPartsOk(kept, ManifestPath(s.config, manifestFilename), manifest, s.config.maxBytes, libs);
    forall x: Member ensures x in Flatten(kept) <==> InParts(parts, x) { InFlatten(parts, x); }
    forall i, x | 0 <= i < |parts| && x in parts[i]
      ensures x in AllStaged(s.groups) && x.metadata !in s.addFailed
    {
      assert InParts(parts, x);
      KeptIsStaged(s.groups, s.addFailed, s.config.maxBytes, x);
    }
  }

  lemma PrepareOrders(s: Sink, manifestFilename: string, doc: Doc, libs: Libraries)
    requires StagedOk(s, libs) && Blank(s)
    ensures var t := Prepare(s, manifestFilename, doc, libs);
            && StagedOk(t, libs) && PlanOrder(t, t.plan.value, libs) && t.attempted == {} && t.events == []
            && t.groups == s.groups && t.config == s.config && t.finished == s.finished && t.closed == s.closed
            && t.names == s.names && t.downloads == [] && t.confirmed == {}
            && t.store.Keys == s.store.Keys && t.finalizing == s.finalizing && t.addFailed == s.addFailed
  {
    hide PlanFor, Kept, Dropped, Resolve, ManifestAttachable, PartFilename, PlanSound;
    AfterPlanKeeps(s, libs);
    PlanForSound(s, Prepare(s, manifestFilename, doc, libs), manifestFilename, Resolve(doc, AfterPlan(s).store), libs);
  }

  // ----- the loop -------------------------------------------------------------------

  ghost predicate LoopOrder(s: Sink, plan: Plan, libs: Libraries) {
    StagedOk(s, libs) && PlanOrder(s, plan, libs)
  }

  lemma StagedKept(s: Sink, u: Sink, name: string, members: seq<Member>, libs: Libraries)
    requires StagedOk(s, libs) && Touches(s, u, name, members)
    requires forall m :: m in Metas(members) ==> m !in s.addFailed
    ensures StagedOk(u, libs)
  {
  }

  lemma AnswersKept(s: Sink, u: Sink, name: string, members: seq<Member>)
    requires AnswersOk(s) && Touches(s, u, name, members)
    ensures AnswersOk(u)
  {
  }

  lemma OrderKept(s: Sink, u: Sink, plan: Plan, i: nat, libs: Libraries)
    requires LoopOrder(s, plan, libs) && i < |plan.parts|
    requires Touches(s, u, NameAt(s, plan, i), plan.parts[i]) && EventsSound(u, plan, libs)
    ensures LoopOrder(u, plan, libs)
  {
    hide PartFilename, Fits, AllStaged, EventsSound;
    var name, members := NameAt(s, plan, i), plan.parts[i];
    forall m | m in Metas(members) ensures m !in s.addFailed {}
    StagedKept(s, u, name, members, libs);
    AnswersKept(s, u, name, members);
  }

  lemma OldEventSound(s: Sink, u: Sink, plan: Plan, i: nat, e: Event, libs: Libraries)
    requires i < |plan.parts| && EventSound(s, plan, e, libs)
    requires Touches(s, u, NameAt(s, plan, i), plan.parts[i])
    requires u.downloads == s.downloads || NameAt(s, plan, i) !in s.attempted
    ensures EventSound(u, plan, e, libs)
  {
    hide PartFilename, FaithfulEvent, AllStaged, StoreTouched;
    assert forall k :: NameAt(u, plan, k) == NameAt(s, plan, k);
  }

  // A part already answered is only flagged again.
  lemma AnsweredPartOrders(s: Sink, u: Sink, plan: Plan, i: nat, libs: Libraries)
    requires LoopOrder(s, plan, libs) && i < |plan.parts|
    requires Touches(s, u, NameAt(s, plan, i), plan.parts[i])
    requires u.events == s.events && u.downloads == s.downloads && u.attempted == s.attempted
    ensures LoopOrder(u, plan, libs)
  {
    hide PartFilename, PlanSound, AnswersOk, StagedOk, FaithfulEvent, StoreTouched;
    forall e | e in s.events
      ensures EventSound(u, plan, e, libs)
    {
      OldEventSound(s, u, plan, i, e, libs);
    }
    assert forall n :: Sent(u, n) <==> Sent(s, n);
    OrderKept(s, u, plan, i, libs);
  }

  lemma SentKept(s: Sink, u: Sink, name: string, members: seq<Member>, e: Event)
    requires Touches(s, u, name, members) && u.events == s.events + [e] && e.name == name
    requires forall n :: n in s.downloads ==> Sent(s, n)
    requires name in u.downloads <==> e.outcome.Attached?
    ensures forall n :: n in u.downloads ==> Sent(u, n)
  {
    forall n | n in u.downloads
      ensures Sent(u, n)
    {
      if n == name {
        assert e in u.events;
      } else {
        assert n in s.downloads;
        var f :| f in s.events && f.outcome.Attached? && f.name == n;
        assert f in u.events;
      }
    }
  }

  lemma FaithfulEither(e: Event, first: bool, manifestName: Option<string>, maxBytes: nat, libs: Libraries)
    requires FaithfulEvent(e, if first then manifestName else None, maxBytes, libs)
    ensures FaithfulEvent(e, manifestName, maxBytes, libs) && (e.doc.Some? ==> first)
  {
    hide BuildPart, ManifestText;
  }

  lemma NewEventSound(s: Sink, u: Sink, plan: Plan, i: nat, e: Event, doc: Doc, libs: Libraries)
    requires i < |plan.parts| && Touches(s, u, NameAt(s, plan, i), plan.parts[i])
    requires NewEvent(s, u, e, doc, i, NameAt(s, plan, i), plan.parts[i],
                      if i == 0 then plan.manifestName else None, libs)
    ensures EventSound(u, plan, e, libs)
  {
    hide PartFilename, FaithfulEvent, StoreTouched;
    FaithfulEither(e, i == 0, plan.manifestName, s.config.maxBytes, libs);
  }

  lemma EventsStaySound(s: Sink, u: Sink, plan: Plan, i: nat, going: bool, doc: Doc, libs: Libraries)
    requires EventsSound(s, plan, libs) && i < |plan.parts|
    requires NameAt(s, plan, i) !in s.attempted && NameAt(s, plan, i) !in s.downloads
    requires Turned(s, u, going, doc, i, NameAt(s, plan, i), plan.parts[i],
                    if i == 0 then plan.manifestName else None, libs)
    ensures EventsSound(u, plan, libs)
  {
    hide FaithfulEvent, PartOk, StoreTouched, PartFilename;
    forall e | e in s.events
      ensures EventSound(u, plan, e, libs)
    {
      OldEventSound(s, u, plan, i, e, libs);
    }
    if u.events != s.events {
      var e := u.events[|s.events|];
      NewEventSound(s, u, plan, i, e, doc, libs);
      assert u.events == s.events + [e];
      forall j | 0 <= j < |s.events| && Settled(s.events[j])
        ensures s.events[j].name != e.name
      {
        assert s.events[j] in s.events;
      }
      SentKept(s, u, NameAt(s, plan, i), plan.parts[i], e);
    }
  }

  lemma PlannedAreStored(s: Sink, plan: Plan, i: nat, libs: Libraries)
    requires LoopOrder(s, plan, libs) && i < |plan.parts|
    ensures forall m :: m in Metas(plan.parts[i]) ==> m in s.store
    ensures forall x :: x in plan.parts[i] ==> SoundMember(x, libs)
    ensures WithinCap(MemberInfos(plan.parts[i]), s.config.maxBytes)
  {
    hide AllStaged, Size, SoundMember, EventsSound;
    var members := plan.parts[i];
    assert WithinCap(Lead([], i) + MemberInfos(members), s.config.maxBytes);
    assert Lead([], i) + MemberInfos(members) == MemberInfos(members);
  }

  // What a pending part's turn leaves, and that it keeps the order.
  lemma PendingPartOrders(s: Sink, plan: Plan, doc: Doc, i: nat, libs: Libraries, fate: Fate)
    requires LoopOrder(s, plan, libs) && i < |plan.parts|
    requires NameAt(s, plan, i) !in s.attempted && NameAt(s, plan, i) !in s.downloads
    ensures var manifestName := if i == 0 then plan.manifestName else None;
            var (u, going) := AttemptPending(s, doc, i, NameAt(s, plan, i), plan.parts[i], manifestName,
                                             plan.manifestFilename, libs, fate);
            && LoopOrder(u, plan, libs)
            && Turned(s, u, going, doc, i, NameAt(s, plan, i), plan.parts[i], manifestName, libs)
  {
    hide PartFilename, AttemptPending, AllStaged, StoreTouched, Size, Turned;
    var name, members := NameAt(s, plan, i), plan.parts[i];
    var manifestName := if i == 0 then plan.manifestName else None;
    var (u, going) := AttemptPending(s, doc, i, name, members, manifestName, plan.manifestFilename, libs, fate);
    PlannedAreStored(s, plan, i, libs);
    PendingTurn(s, doc, i, name, members, manifestName, plan.manifestFilename, libs, fate);
    EventsStaySound(s, u, plan, i, going, doc, libs);
    TurnTouches(s, u, going, doc, i, name, members, manifestName, libs);
    OrderKept(s, u, plan, i, libs);
  }

  lemma TurnTouches(s: Sink, u: Sink, going: bool, doc: Doc, index: nat, name: string, members: seq<Member>,
                    manifestName: Option<string>, libs: Libraries)
    requires Turned(s, u, going, doc, index, name, members, manifestName, libs)
    ensures Touches(s, u, name, members) && (going <==> name in u.attempted)
    ensures Unconfirmed(s, members) ==> PartOk(u, name, members)
  {
  }

  // One turn of the loop, however it ends.
  lemma FinishPartOrders(s: Sink, plan: Plan, doc: Doc, i: nat, libs: Libraries, env: nat -> Fate)
    requires LoopOrder(s, plan, libs) && i < |plan.parts|
    ensures var (u, going) := FinishPart(s, plan, doc, i, libs, env);
            && LoopOrder(u, plan, libs) && Touches(s, u, NameAt(s, plan, i), plan.parts[i])
            && (going <==> NameAt(s, plan, i) in u.attempted)
  {
    hide PartFilename, AttemptPending, Fits, AllStaged, StoreTouched, EventsSound, Turned;
    var name, members := NameAt(s, plan, i), plan.parts[i];
    PlannedAreStored(s, plan, i, libs);
    if name in s.downloads {
      ConfirmTouches(s, name, members);
      AnsweredPartOrders(s, Confirm(s, members), plan, i, libs);
    } else if name in s.attempted {
      MissingTouches(s, name, members);
      AnsweredPartOrders(s, Missing(s, members), plan, i, libs);
    } else {
      PendingPartOrders(s, plan, doc, i, libs, env(|s.events|));
      var manifestName := if i == 0 then plan.manifestName else None;
      var (u, going) := FinishPart(s, plan, doc, i, libs, env);
      TurnTouches(s, u, going, doc, i, name, members, manifestName, libs);
    }
  }

  // All `finish` never changes once the plan is made.
  ghost predicate SameStaging(s: Sink, t: Sink) {
    && t.config == s.config && t.groups == s.groups && t.addFailed == s.addFailed && t.plan == s.plan
    && t.names == s.names && t.finalizing == s.finalizing && t.store.Keys == s.store.Keys
  }

  ghost predicate AnsweredUpTo(s: Sink, plan: Plan, k: nat) {
    forall j :: 0 <= j < k <= |plan.parts| ==> NameAt(s, plan, Position(j, |plan.parts|)) in s.attempted
  }

  lemma AnsweredBefore(s: Sink, plan: Plan, k: nat)
    requires k <= |plan.parts| && AnsweredUpTo(s, plan, k)
    ensures k < |plan.parts| && Position(k, |plan.parts|) == 0 ==>
              forall i :: 0 < i < |plan.parts| ==> NameAt(s, plan, i) in s.attempted
    ensures k == |plan.parts| ==> AllAnswered(s, plan)
  {
    hide PartFilename;
    var n := |plan.parts|;
    forall i | 0 < i < n && (k == n || Position(k, n) == 0)
      ensures NameAt(s, plan, i) in s.attempted
    {
      assert Position(i - 1, n) == i;
    }
    if k == n && n > 0 { assert Position(n - 1, n) == 0; }
  }

  lemma {:induction false} FinishFromOrders(s: Sink, plan: Plan, doc: Doc, k: nat, libs: Libraries, env: nat -> Fate)
    requires k <= |plan.parts| && LoopOrder(s, plan, libs) && AnsweredUpTo(s, plan, k)
    ensures var (t, done) := FinishFrom(s, plan, doc, k, libs, env);
            && LoopOrder(t, plan, libs) && SameStaging(s, t)
            && (done ==> t.finished && t.closed && AllAnswered(t, plan))
            && (!done ==> t.finished == s.finished && t.closed == s.closed)
    decreases |plan.parts| - k
  {
    hide PartFilename, FinishPart, EventsSound, PlanSound, AnswersOk, StagedOk, StoreTouched;
    AnsweredBefore(s, plan, k);
    if k == |plan.parts| {
      FinishedOrders(s, plan, libs);
    } else {
      var i := Position(k, |plan.parts|);
      var (u, going) := FinishPart(s, plan, doc, i, libs, env);
      FinishPartOrders(s, plan, doc, i, libs, env);
      TouchesKeepsStaging(s, u, NameAt(s, plan, i), plan.parts[i]);
      if going {
        assert forall j :: NameAt(u, plan, j) == NameAt(s, plan, j);
        FinishFromOrders(u, plan, doc, k + 1, libs, env);
      }
    }
  }

  lemma TouchesKeepsStaging(s: Sink, u: Sink, name: string, members: seq<Member>)
    requires Touches(s, u, name, members)
    ensures SameStaging(s, u) && s.attempted <= u.attempted && u.finished == s.finished && u.closed == s.closed
  {
  }

  lemma FinishedOrders(s: Sink, plan: Plan, libs: Libraries)
    requires LoopOrder(s, plan, libs)
    ensures LoopOrder(s.(finished := true, closed := true), plan, libs)
    ensures AllAnswered(s, plan) ==> AllAnswered(s.(finished := true, closed := true), plan)
  {
    hide PartFilename, Fits, AllStaged, FaithfulEvent;
    var t := s.(finished := true, closed := true);
    assert forall k :: NameAt(t, plan, k) == NameAt(s, plan, k);
    assert forall n :: Sent(t, n) <==> Sent(s, n);
  }

  // ----- every operation --------------------------------------------------------------

  // Staged artifacts have names of their own, so none is staged twice.
  ghost predicate NamedOnce(s: Sink) {
    && (forall x :: x in AllStaged(s.groups) ==> NamedBy(s, x))
    && (forall x :: x in AllStaged(s.groups) ==> multiset(AllStaged(s.groups))[x] == 1)
  }

  ghost predicate NamedBy(s: Sink, x: Member) {
    exists name :: name in s.names && x.info.filename == s.config.kind + "/" + name
  }

  // What every state of every run is: staged artifacts sound and named once, nothing answered
  // or warned of before a plan is made, the plan, answers and log in order from then on.
  ghost predicate Orderly(s: Sink, libs: Libraries) {
    && StagedOk(s, libs) && NamedOnce(s)
    && (s.plan.None? ==> Blank(s) && s.warnings == [])
    && (s.plan.Some? ==> PlanOrder(s, s.plan.value, libs) && s.finalizing)
    && (s.finished ==> s.closed && s.plan.Some? && AllAnswered(s, s.plan.value))
  }

  lemma InitialOrder(config: Config, libs: Libraries)
    ensures Orderly(Initial(config), libs)
  {
  }

  function Begun(s: Sink, known: Store): Sink { s.(finalizing := true, store := known + s.store) }

  lemma BegunOrders(s: Sink, known: Store, libs: Libraries)
    requires Orderly(s, libs) && !s.closed
    ensures Orderly(Begun(s, known), libs)
  {
    hide PartFilename, Fits, AllStaged, FaithfulEvent;
    var t := Begun(s, known);
    assert forall m :: m in s.store ==> m in t.store && t.store[m] == s.store[m];
    if s.plan.Some? {
      var plan := s.plan.value;
      assert forall k :: NameAt(t, plan, k) == NameAt(s, plan, k);
      assert forall n :: Sent(t, n) <==> Sent(s, n);
    }
  }

  lemma FinishOrders(s: Sink, manifestFilename: string, doc: Doc, known: Store, libs: Libraries, env: nat -> Fate)
    requires Orderly(s, libs)
    ensures Orderly(Finish(s, manifestFilename, doc, known, libs, env).0, libs)
    ensures Finish(s, manifestFilename, doc, known, libs, env).0.config == s.config
  {
    hide PlanOrder, StagedOk, NamedOnce, FinishFrom, AfterPlan, PlanFor, PartFilename;
    if !s.finished && !s.closed {
      var begun := Begun(s, known);
      BegunOrders(s, known, libs);
      if s.plan.None? {
        PrepareOrders(begun, manifestFilename, doc, libs);
        SameNames(s, Prepare(begun, manifestFilename, doc, libs));
        LoopEndsInOrder(Prepare(begun, manifestFilename, doc, libs), doc, libs, env);
      } else if s.plan.value.manifestFilename == manifestFilename {
        LoopEndsInOrder(begun, doc, libs, env);
      }
    }
  }

  lemma LoopEndsInOrder(s: Sink, doc: Doc, libs: Libraries, env: nat -> Fate)
    requires s.plan.Some? && StagedOk(s, libs) && PlanOrder(s, s.plan.value, libs) && s.finalizing
    requires !s.finished && !s.closed && NamedOnce(s)
    ensures Orderly(FinishFrom(s, s.plan.value, doc, 0, libs, env).0, libs)
    ensures FinishFrom(s, s.plan.value, doc, 0, libs, env).0.config == s.config
  {
    hide StagedOk, AllStaged, FinishFrom, PartFilename, PlanOrder, NamedOnce;
    FinishFromOrders(s, s.plan.value, doc, 0, libs, env);
    SameNames(s, FinishFrom(s, s.plan.value, doc, 0, libs, env).0);
  }

  lemma {:induction false} InStage(groups: seq<Staged>, key: Key, x: Member, y: Member)
    ensures y in AllStaged(Stage(groups, key, x)) <==> y in AllStaged(groups) || y == x
  {
    var t := Stage(groups, key, x);
    if groups == [] {
      assert t[1..] == [] && AllStaged(t) == [x] + AllStaged([]) == [x];
    } else if groups[0].key == key {
      assert t[1..] == groups[1..];
    } else {
      assert t[1..] == Stage(groups[1..], key, x);
      InStage(groups[1..], key, x, y);
    }
  }

  lemma {:induction false} StagedOnceMore(groups: seq<Staged>, key: Key, x: Member)
    ensures multiset(AllStaged(Stage(groups, key, x))) == multiset(AllStaged(groups)) + multiset{x}
  {
    var t := Stage(groups, key, x);
    if groups == [] {
      assert t[1..] == [] && AllStaged(t) == [x] + AllStaged([]) == [x];
    } else if groups[0].key == key {
      assert t[1..] == groups[1..];
    } else {
      assert t[1..] == Stage(groups[1..], key, x);
      StagedOnceMore(groups[1..], key, x);
    }
  }

  lemma NameIsNew(s: Sink, y: Member, filename: string)
    requires NamedBy(s, y) && filename !in s.names
    ensures y.info.filename != s.config.kind + "/" + filename
  {
    var name :| name in s.names && y.info.filename == s.config.kind + "/" + name;
    assert (s.config.kind + "/" + name)[|s.config.kind| + 1..] == name;
    assert (s.config.kind + "/" + filename)[|s.config.kind| + 1..] == filename;
  }

  lemma SameNames(s: Sink, t: Sink)
    requires NamedOnce(s) && t.groups == s.groups && t.names == s.names && t.config == s.config
    ensures NamedOnce(t)
  {
    hide AllStaged;
    forall x | x in AllStaged(t.groups) ensures NamedBy(t, x) {
      assert NamedBy(s, x);
    }
  }

  lemma EnlistedOnce(s: Sink, filename: string, device: Option<string>, data: seq<byte>, metadata: Metadata,
                     libs: Libraries)
    requires NamedOnce(s) && filename !in s.names
    ensures NamedOnce(Enlisted(s, filename, device, data, metadata, libs))
  {
    hide AllStaged, Stage;
    var x := NewMember(s.config.kind, filename, data, metadata, libs);
    var t := Enlisted(s, filename, device, data, metadata, libs);
    StagedOnceMore(s.groups, GroupKey(filename, device), x);
    forall y | y in AllStaged(s.groups) ensures y != x { NameIsNew(s, y, filename); }
    assert x !in AllStaged(s.groups);
    assert x !in multiset(AllStaged(s.groups));
    forall y | y in AllStaged(t.groups) ensures NamedBy(t, y) && multiset(AllStaged(t.groups))[y] == 1 {
      InStage(s.groups, GroupKey(filename, device), x, y);
      if y == x {
        assert filename in t.names;
      } else {
        var name :| name in s.names && y.info.filename == s.config.kind + "/" + name;
        assert name in t.names;
      }
    }
  }

  // Describing an object keeps its flag and makes it a metadata dictionary.
  lemma DescribedFacts(fs: seq<Field>, filename: string, data: seq<byte>, libs: Libraries)
    ensures var d := Described(fs, filename, data, libs);
            IsMetadata(d) && Find(d, FLAG) == Find(fs, FLAG)
    ensures Find(Put(fs, "name", Str(filename)), FLAG) == Find(fs, FLAG)
    ensures IsMetadata(fs) ==> IsMetadata(Put(fs, "name", Str(filename)))
  {
    var a := Put(fs, "name", Str(filename));
    var b := Put(a, "bytes", Int(|data|));
    forall q { FindPut(fs, "name", Str(filename), q); }
    forall q { FindPut(a, "bytes", Int(|data|), q); }
    forall q { FindPut(b, "sha256", Str(libs.sha256(data)), q); }
  }

  lemma StoreOneKeeps(s: Sink, m: Metadata, fs: seq<Field>, libs: Libraries)
    requires StagedOk(s, libs)
    requires m in s.store ==> (IsMetadata(s.store[m]) ==> IsMetadata(fs)) && (FlagAt(s.store, m) ==> Flagged(fs))
    ensures StagedOk(s.(store := s.store[m := fs]), libs)
  {
    hide AllStaged;
  }

  lemma AddFailedKeeps(s: Sink, m: Metadata, libs: Libraries)
    requires StagedOk(s, libs) && m in s.store
    ensures StagedOk(AddFailed(s, m), libs)
  {
    hide AllStaged;
    forall q { FindPut(s.store[m], FLAG, Bool(true), q); }
  }

  lemma StagedKeeps(s: Sink, t: Sink, key: Key, x: Member, libs: Libraries)
    requires StagedOk(s, libs) && SoundMember(x, libs)
    requires x.metadata in s.store && IsMetadata(s.store[x.metadata])
    requires t.groups == Stage(s.groups, key, x) && t.store == s.store && t.addFailed == s.addFailed
    ensures StagedOk(t, libs)
  {
    hide AllStaged;
    forall y | y in AllStaged(t.groups)
      ensures SoundMember(y, libs) && y.metadata in t.store && IsMetadata(t.store[y.metadata])
    {
      InStage(s.groups, key, x, y);
    }
  }

  lemma AddNames(s: Sink, filename: string, payload: Json, device: Option<string>, metadata: Metadata,
                 given: seq<Field>, fault: Fault, libs: Libraries)
    requires NamedOnce(s)
    ensures NamedOnce(Add(s, filename, payload, device, metadata, given, fault, libs).0)
  {
    hide AllStaged, JsonBytes, NamedOnce, Described, Stage;
    if AddRefusal(s, filename).None? {
      var data := JsonBytes(payload);
      var named := Named(s, metadata, given, filename);
      var measured := Measured(named, metadata, filename, data, libs);
      var staged := Enlisted(measured, filename, device, data, metadata, libs);
      SameNames(s, measured);
      SameNames(s, AddFailed(named, metadata));
      SameNames(s, AddFailed(measured, metadata));
      EnlistedOnce(measured, filename, device, data, metadata, libs);
      SameNames(staged, AddFailed(staged, metadata));
    }
  }

  lemma AddOrders(s: Sink, filename: string, payload: Json, device: Option<string>, metadata: Metadata,
                  given: seq<Field>, fault: Fault, libs: Libraries)
    requires Orderly(s, libs)
    ensures Orderly(Add(s, filename, payload, device, metadata, given, fault, libs).0, libs)
  {
    hide PlanOrder, AllStaged, JsonBytes, NamedOnce, Described, Stage, StagedOk;
    AddNames(s, filename, payload, device, metadata, given, fault, libs);
    if AddRefusal(s, filename).None? {
      var before := if metadata in s.store then s.store[metadata] else given;
      var data := JsonBytes(payload);
      var named := Named(s, metadata, given, filename);
      var measured := Measured(named, metadata, filename, data, libs);
      var staged := Enlisted(measured, filename, device, data, metadata, libs);
      DescribedFacts(before, filename, data, libs);
      DescribedFacts(named.store[metadata], filename, data, libs);
      StoreOneKeeps(s, metadata, named.store[metadata], libs);
      StoreOneKeeps(named, metadata, measured.store[metadata], libs);
      AddFailedKeeps(named, metadata, libs);
      AddFailedKeeps(measured, metadata, libs);
      if !fault.NotSerializable? && !fault.NotWritten? {
        var member := NewMember(s.config.kind, filename, data, metadata, libs);
        StagedKeeps(measured, staged, GroupKey(filename, device), member, libs);
        AddFailedKeeps(staged, metadata, libs);
      }
    }
  }

  lemma CloseMarks(s: Sink, m: Metadata, libs: Libraries)
    requires StagedOk(s, libs) && m in s.store
    ensures m in Metas(Live(AllStaged(s.groups), s.confirmed)) <==> m in Metas(AllStaged(s.groups)) && m !in s.confirmed
  {
    hide StagedOk;
    var live := Live(AllStaged(s.groups), s.confirmed);
    if m in Metas(live) {
      var x: Member :| x in live && x.metadata == m;
      InLive(AllStaged(s.groups), s.confirmed, x);
    }
    if m in Metas(AllStaged(s.groups)) && m !in s.confirmed {
      var x: Member :| x in AllStaged(s.groups) && x.metadata == m;
      InLive(AllStaged(s.groups), s.confirmed, x);
    }
  }

  lemma CloseCloses(s: Sink, libs: Libraries)
    requires StagedOk(s, libs) && !s.finished
    ensures ClosesTo(s, Close(s))
  {
    hide AllStaged, Live, StagedOk;
    var live := Live(AllStaged(s.groups), s.confirmed);
    forall m | m in s.store
      ensures if m in Metas(AllStaged(s.groups)) && m !in s.confirmed then FlagAt(Close(s).store, m)
              else Close(s).store[m] == s.store[m]
    {
      CloseMarks(s, m, libs);
      MarkedAt(s.store, live, m);
    }
  }

  ghost predicate ClosesTo(s: Sink, t: Sink) {
    && t.groups == s.groups && t.config == s.config && t.plan == s.plan && t.addFailed == s.addFailed
    && t.confirmed == s.confirmed && t.downloads == s.downloads && t.attempted == s.attempted && t.events == s.events
    && t.store.Keys == s.store.Keys
    && forall m :: m in s.store ==>
         (if m in Metas(AllStaged(s.groups)) && m !in s.confirmed then FlagAt(t.store, m) else t.store[m] == s.store[m])
  }

  lemma CloseOrders(s: Sink, libs: Libraries)
    requires Orderly(s, libs)
    ensures Orderly(Close(s), libs)
  {
    hide PartFilename, AllStaged, Live, Fits, FaithfulEvent, NamedOnce;
    var t := Close(s);
    SameNames(s, t);
    if !s.finished {
      MarkedTouches(s.store, Live(AllStaged(s.groups), s.confirmed));
      CloseCloses(s, libs);
    }
    if s.plan.Some? {
      assert forall k :: NameAt(t, s.plan.value, k) == NameAt(s, s.plan.value, k);
      assert forall n :: Sent(t, n) <==> Sent(s, n);
    }
  }

  // ----- whole runs -------------------------------------------------------------------

  lemma ApplyOrders(s: Sink, op: Op, libs: Libraries, env: nat -> Fate)
    requires Orderly(s, libs)
    ensures Orderly(Apply(s, op, libs, env), libs) && Apply(s, op, libs, env).config == s.config
  {
    hide Orderly;
    match op
    case AddOp(filename, payload, device, metadata, given, fault) =>
      AddOrders(s, filename, payload, device, metadata, given, fault, libs);
    case FinishOp(manifestFilename, doc, known) => FinishOrders(s, manifestFilename, doc, known, libs, env);
    case CloseOp => CloseOrders(s, libs);
  }

  lemma {:induction false} RunOrderly(t: Trace, config: Config, libs: Libraries, env: nat -> Fate, k: nat)
    requires IsRun(t, config, libs, env) && k < |t.states|
    ensures Orderly(t.states[k], libs) && t.states[k].config == config
  {
    hide Orderly, Apply;
    if k == 0 {
      InitialOrder(config, libs);
    } else {
      RunOrderly(t, config, libs, env, k - 1);
      assert StepAt(t, k - 1, libs, env);
      ApplyOrders(t.states[k - 1], t.ops[k - 1], libs, env);
    }
  }

  // Over every run of adds, finishes and closes, whatever the callback answers or raises:
  // nothing handed to the callback ever passes the cap, and the size refusal of
  // `_build_part` never fires.
  lemma PartsNeverPassTheCap(t: Trace, config: Config, libs: Libraries, env: nat -> Fate, k: nat, e: Event)
    requires IsRun(t, config, libs, env) && k < |t.states| && e in t.states[k].events
    ensures |e.archive| <= config.maxBytes && !e.outcome.TooLarge?
  {
    hide StagedOk, PlanSound, PartFilename, BuildPart, AnswersOk, NamedOnce, IsRun, ManifestText;
    var s := t.states[k];
    RunOrderly(t, config, libs, env, k);
    assert EventSound(s, s.plan.value, e, libs);
  }

  // Downloads are listed once each; a part the callback answered is never attached
  // again; and what is listed is what was accepted.
  lemma AnsweredPartsStayAnswered(t: Trace, config: Config, libs: Libraries, env: nat -> Fate, k: nat)
    requires IsRun(t, config, libs, env) && k < |t.states|
    ensures var s := t.states[k];
            && NoRepeats(s.downloads)
            && (forall i, j :: 0 <= i < j < |s.events| && Settled(s.events[i]) ==> s.events[j].name != s.events[i].name)
            && (forall name :: name in s.downloads <==> Sent(s, name))
  {
    hide StagedOk, PlanSound, PartFilename, FaithfulEvent, NamedOnce, IsRun;
    var s := t.states[k];
    RunOrderly(t, config, libs, env, k);
    forall name | Sent(s, name)
      ensures name in s.downloads
    {
      var e :| e in s.events && e.outcome.Attached? && e.name == name;
      assert EventSound(s, s.plan.value, e, libs);
    }
  }

  // However often `finish` is called, the plan, the groups and the names stay what they
  // were when the plan was made; and once finished, nothing changes any more.
  lemma {:induction false} PlanNeverChanges(t: Trace, config: Config, libs: Libraries, env: nat -> Fate,
                                            j: nat, k: nat)
    requires IsRun(t, config, libs, env) && j <= k < |t.states| && t.states[j].plan.Some?
    ensures var (s, u) := (t.states[j], t.states[k]);
            && u.plan == s.plan && u.groups == s.groups && u.names == s.names
            && (s.finished ==> u == s)
    decreases k
  {
    hide Orderly, Apply;
    if j < k {
      PlanNeverChanges(t, config, libs, env, j, k - 1);
      RunOrderly(t, config, libs, env, k - 1);
      assert StepAt(t, k - 1, libs, env);
      PlanIsFixed(t.states[k - 1], t.ops[k - 1], libs, env);
    }
  }

  // The plan, once made, is the plan of every later call; and a finished sink answers
  // `finish` with the same downloads and changes nothing.
  lemma PlanIsFixed(s: Sink, op: Op, libs: Libraries, env: nat -> Fate)
    requires Orderly(s, libs) && s.plan.Some?
    ensures var t := Apply(s, op, libs, env);
            && t.plan == s.plan && t.groups == s.groups && t.names == s.names
            && (s.finished ==> t == s)
  {
    hide StagedOk, PlanOrder, FinishFrom, NamedOnce;
    if op.FinishOp? && !s.finished && !s.closed {
      var begun := Begun(s, op.known);
      BegunOrders(s, op.known, libs);
      if s.plan.value.manifestFilename == op.manifestFilename {
        LoopKeepsStaging(begun, op.doc, libs, env);
      }
    }
  }

  lemma LoopKeepsStaging(s: Sink, doc: Doc, libs: Libraries, env: nat -> Fate)
    requires s.plan.Some? && StagedOk(s, libs) && PlanOrder(s, s.plan.value, libs)
    ensures SameStaging(s, FinishFrom(s, s.plan.value, doc, 0, libs, env).0)
  {
    hide StagedOk, PlanOrder, FinishFrom, PartFilename;
    FinishFromOrders(s, s.plan.value, doc, 0, libs, env);
  }

  // ----- what interrupts a finish -------------------------------------------------------------

  // The last attempt raised: its callback, its build, or its size.
  ghost predicate RaisedLast(u: Sink, env: nat -> Fate) {
    u.events != []
    && var n := |u.events| - 1;
       var outcome := u.events[n].outcome;
       || (outcome.AttachRaised? && env(n).AttachRaises?)
       || (outcome.BuildRaised? && env(n).BuildRaises?)
       || outcome.TooLarge?
  }

  lemma StoppedTurn(s: Sink, plan: Plan, doc: Doc, index: nat, libs: Libraries, env: nat -> Fate)
    requires index < |plan.parts|
    ensures var (u, going) := FinishPart(s, plan, doc, index, libs, env); !going ==> RaisedLast(u, env)
  {
    hide PartFilename, FitsNow, BuildPart, Resolve, ManifestText, Cleared, Confirm, Missing, Settle;
  }

  lemma {:induction false} StoppedLoop(s: Sink, plan: Plan, doc: Doc, k: nat, libs: Libraries, env: nat -> Fate)
    requires k <= |plan.parts|
    ensures var (u, done) := FinishFrom(s, plan, doc, k, libs, env);
      && (!done ==> RaisedLast(u, env))
      && (done ==> u.finished && u.closed)
    decreases |plan.parts| - k
  {
    hide FinishPart, RaisedLast;
    if k < |plan.parts| {
      var i := Position(k, |plan.parts|);
      StoppedTurn(s, plan, doc, i, libs, env);
      var (u, going) := FinishPart(s, plan, doc, i, libs, env);
      if going { StoppedLoop(u, plan, doc, k + 1, libs, env); }
    }
  }

  lemma StoppedFinish(s: Sink, manifestFilename: string, doc: Doc, known: Store, libs: Libraries, env: nat -> Fate)
    ensures var (u, r) := Finish(s, manifestFilename, doc, known, libs, env);
      && (r == Err(Interrupted) ==> RaisedLast(u, env))
      && (r.Ok? ==> u.finished)
  {
    hide FinishFrom, RaisedLast, Prepare;
    var begun := Begun(s, known);
    if s.plan.Some? {
      StoppedLoop(begun, s.plan.value, doc, 0, libs, env);
    } else {
      var p := Prepare(begun, manifestFilename, doc, libs);
      StoppedLoop(p, p.plan.value, doc, 0, libs, env);
    }
  }

  // Over every run, what interrupts a finish is the callback or the building of a part; and
  // a finish in which neither raises comes to its end.
  lemma OnlyPartsInterrupt(t: Trace, config: Config, libs: Libraries, env: nat -> Fate, k: nat)
    requires IsRun(t, config, libs, env) && k < |t.ops| && t.ops[k].FinishOp?
    ensures var op := t.ops[k];
      var (u, r) := Finish(t.states[k], op.manifestFilename, op.doc, op.known, libs, env);
      && u == t.states[k + 1]
      && (r == Err(Interrupted) ==>
            && u.events != []
            && (u.events[|u.events| - 1].outcome.AttachRaised? || u.events[|u.events| - 1].outcome.BuildRaised?))
      && ((forall n: nat :: !env(n).AttachRaises? && !env(n).BuildRaises?) && !t.states[k].closed
          && (t.states[k].plan.Some? ==> t.states[k].plan.value.manifestFilename == op.manifestFilename) ==>
            r == Ok(u.downloads) && u.finished)
  {
    hide IsRun, FinishFrom, Prepare;
    FinishStep(t, config, libs, env, k);
    var op := t.ops[k];
    StoppedFinish(t.states[k], op.manifestFilename, op.doc, op.known, libs, env);
    var (u, r) := Finish(t.states[k], op.manifestFilename, op.doc, op.known, libs, env);
    if r == Err(Interrupted) {
      PartsNeverPassTheCap(t, config, libs, env, k + 1, u.events[|u.events| - 1]);
    }
  }

  lemma FinishStep(t: Trace, config: Config, libs: Libraries, env: nat -> Fate, k: nat)
    requires IsRun(t, config, libs, env) && k < |t.ops| && t.ops[k].FinishOp?
    ensures |t.states| == |t.ops| + 1
    ensures var op := t.ops[k];
      Finish(t.states[k], op.manifestFilename, op.doc, op.known, libs, env).0 == t.states[k + 1]
  {
    hide Finish;
    assert StepAt(t, k, libs, env);
  }
}
