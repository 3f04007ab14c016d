/** What every step of the zip sink keeps. */
module SinkInvariants {
  import opened Basics
  import opened Decimal
  import opened Json
  import opened ZipLayout
  import opened Manifest
  import opened Packing
  import opened SinkModel

  predicate FlagAt(store: Store, m: Metadata) { m in store && Flagged(store[m]) }

  function NameAt(s: Sink, plan: Plan, i: nat): string { PartFilename(s.config.filename, i, |plan.parts|) }

  lemma PartNamesDistinct(filename: string, i: nat, j: nat, count: nat)
    requires i < count && j < count && PartFilename(filename, i, count) == PartFilename(filename, j, count)
    ensures i == j
  {
    if count > 1 {
      var head, tail := PartStem(filename) + "_part", "of" + Digits(count) + ".zip";
      var a, b := PartFilename(filename, i, count), PartFilename(filename, j, count);
      assert a == head + Digits(i + 1) + tail && b == head + Digits(j + 1) + tail;
      assert a[|head|..|a| - |tail|] == Digits(i + 1) && b[|head|..|b| - |tail|] == Digits(j + 1);
      DigitsInjective(i + 1, j + 1);
    }
  }

  // ----- flags ------------------------------------------------------------------

  lemma MarkedAt(store: Store, members: seq<Member>, m: Metadata)
    requires m in store
    ensures m in Metas(members) ==> FlagAt(Marked(store, members), m)
    ensures IsMetadata(Marked(store, members)[m]) == IsMetadata(store[m])
    ensures m !in Metas(members) ==> Marked(store, members)[m] == store[m]
  {
    FindPut(store[m], FLAG, Bool(true), FLAG);
    FindPut(store[m], FLAG, Bool(true), "name");
    FindPut(store[m], FLAG, Bool(true), "bytes");
    FindPut(store[m], FLAG, Bool(true), "sha256");
  }

  lemma ClearedAt(store: Store, members: seq<Member>, m: Metadata)
    requires m in store
    ensures m in Metas(members) ==> !FlagAt(Cleared(store, members), m)
    ensures IsMetadata(Cleared(store, members)[m]) == IsMetadata(store[m])
    ensures m !in Metas(members) ==> Cleared(store, members)[m] == store[m]
  {
    FindDrop(store[m], FLAG, FLAG);
    FindDrop(store[m], FLAG, "name");
    FindDrop(store[m], FLAG, "bytes");
    FindDrop(store[m], FLAG, "sha256");
  }

  // ----- staged members -----------------------------------------------------------

  predicate SoundMember(x: Member, libs: Libraries) {
    x.info == CompressedInfo(x.info.filename, x.data, libs)
  }

  ghost predicate StagedOk(s: Sink, libs: Libraries) {
    && (forall x :: x in AllStaged(s.groups) ==>
          SoundMember(x, libs) && x.metadata in s.store && IsMetadata(s.store[x.metadata]))
    && (forall m :: m in s.addFailed ==> FlagAt(s.store, m))
  }

  predicate InParts(parts: seq<seq<Member>>, x: Member) {
    exists i :: 0 <= i < |parts| && x in parts[i]
  }

  // What a plan is, whatever happens after it was made.
  ghost predicate PlanSound(s: Sink, plan: Plan) {
    && |plan.parts| > 0
    && Fits(plan.parts, [], s.config.maxBytes)
    && (forall i, x :: 0 <= i < |plan.parts| && x in plan.parts[i] ==>
          x in AllStaged(s.groups) && x.metadata !in s.addFailed)
  }

  // A metadata object is described by one part only, and by none if it also describes an
  // artifact that is in no part.
  ghost predicate Apart(groups: seq<Staged>, parts: seq<seq<Member>>) {
    && Separate(parts)
    && (forall x, i :: x in AllStaged(groups) && !InParts(parts, x) && 0 <= i < |parts| ==>
          x.metadata !in Metas(parts[i]))
  }

  // Different parts describe different artifacts.
  ghost predicate Separate(parts: seq<seq<Member>>) {
    forall i, j :: 0 <= i < j < |parts| ==> Metas(parts[i]) !! Metas(parts[j])
  }

  // ----- flags against answers ------------------------------------------------------

  // A part's members are flagged exactly when the part has an answer and is not
  // attached; and confirmed exactly when it is attached.
  ghost predicate PartOk(s: Sink, name: string, members: seq<Member>) {
    forall m :: m in Metas(members) ==>
      && m in s.store
      && (name in s.attempted ==> (FlagAt(s.store, m) <==> name !in s.downloads))
      && (m in s.confirmed <==> name in s.downloads)
  }

  ghost predicate NoRepeats(names: seq<string>) {
    forall i, j :: 0 <= i < j < |names| ==> names[i] != names[j]
  }

  ghost predicate AnswersOk(s: Sink) {
    && NoRepeats(s.downloads)
    && (forall name :: name in s.downloads ==> name in s.attempted)
  }

  ghost predicate FlagsOk(s: Sink, plan: Plan) {
    && (forall i :: 0 <= i < |plan.parts| ==> PartOk(s, NameAt(s, plan, i), plan.parts[i]))
    && (forall x :: x in AllStaged(s.groups) && !InParts(plan.parts, x) ==>
          FlagAt(s.store, x.metadata) && x.metadata !in s.confirmed)
  }

  // ----- one turn of the loop -------------------------------------------------------

  ghost predicate Unconfirmed(s: Sink, members: seq<Member>) {
    forall m :: m in Metas(members) ==> m !in s.confirmed
  }

  // All a turn on one part may change.
  ghost predicate Touches(s: Sink, t: Sink, name: string, members: seq<Member>) {
    && t.config == s.config && t.groups == s.groups && t.addFailed == s.addFailed && t.plan == s.plan
    && t.names == s.names && t.finalizing == s.finalizing && t.finished == s.finished && t.closed == s.closed
    && StoreTouched(s.store, t.store, members)
    && (t.confirmed == s.confirmed || t.confirmed == s.confirmed + Metas(members))
    && (t.attempted == s.attempted || t.attempted == s.attempted + {name})
    && (t.downloads == s.downloads
        || (name !in s.attempted && name in t.attempted && t.downloads == s.downloads + [name]))
  }

  ghost predicate StoreTouched(before: Store, after: Store, members: seq<Member>) {
    && after.Keys == before.Keys
    && forall m :: m in before ==>
         (m !in Metas(members) ==> after[m] == before[m]) && IsMetadata(after[m]) == IsMetadata(before[m])
  }

  lemma MarkedTouches(store: Store, members: seq<Member>)
    ensures StoreTouched(store, Marked(store, members), members)
    ensures forall m :: m in Metas(members) && m in store ==> FlagAt(Marked(store, members), m)
  {
    forall m | m in store { MarkedAt(store, members, m); }
  }

  lemma ClearedTouches(store: Store, members: seq<Member>)
    ensures StoreTouched(store, Cleared(store, members), members)
    ensures forall m :: m in Metas(members) && m in store ==> !FlagAt(Cleared(store, members), m)
  {
    forall m | m in store { ClearedAt(store, members, m); }
  }

  lemma ConfirmTouches(s: Sink, name: string, members: seq<Member>)
    requires forall m :: m in Metas(members) ==> m in s.store
    requires name in s.downloads
    ensures Touches(s, Confirm(s, members), name, members) && PartOk(Confirm(s, members), name, members)
  {
    ClearedTouches(s.store, members);
  }

  lemma MissingTouches(s: Sink, name: string, members: seq<Member>)
    requires forall m :: m in Metas(members) ==> m in s.store
    requires name !in s.downloads
    ensures Touches(s, Missing(s, members), name, members)
    ensures Unconfirmed(s, members) ==> PartOk(Missing(s, members), name, members)
  {
    MarkedTouches(s.store, members);
  }

  lemma SettleTouches(s: Sink, name: string, members: seq<Member>, attached: bool)
    requires forall m :: m in Metas(members) ==> m in s.store
    requires name !in s.downloads && name !in s.attempted
    ensures var t := Settle(s, name, members, attached);
            && Touches(s, t, name, members) && (Unconfirmed(s, members) ==> PartOk(t, name, members))
            && t.events == s.events && name in t.attempted && (name in t.downloads <==> attached)
  {
    hide Marked, Cleared;
    MarkedTouches(s.store, members);
    ClearedTouches(s.store, members);
  }

  lemma AttemptTouches(s: Sink, event: Event)
    requires forall m :: m in Metas(event.members) ==> m in s.store
    requires event.name !in s.downloads && event.name !in s.attempted
    ensures var (t, going) := Attempt(s, event);
            && Touches(s, t, event.name, event.members)
            && (Unconfirmed(s, event.members) ==> PartOk(t, event.name, event.members))
            && t.events == s.events + [event] && (going <==> event.name in t.attempted)
            && (event.name in t.downloads <==> event.outcome.Attached?)
            && (event.name in t.attempted <==> event.outcome.Attached? || event.outcome.Refused?)
  {
    hide Settle;
    SettleTouches(Recorded(s, event), event.name, event.members, event.outcome.Attached?);
  }

  lemma TouchesCompose(s: Sink, t: Sink, u: Sink, name: string, members: seq<Member>)
    requires Touches(s, t, name, members) && Touches(t, u, name, members)
    requires t.confirmed == s.confirmed && t.attempted == s.attempted && t.downloads == s.downloads
    ensures Touches(s, u, name, members)
  {
  }

  // ----- building a part ------------------------------------------------------------

  function TextInfos(name: string, text: Option<seq<byte>>, libs: Libraries): seq<ZipInfo> {
    match text
    case Some(data) => [CompressedInfo(name, data, libs)]
    case None => []
  }

  // The bytes built for a part are exactly as many as its entries were planned to take.
  lemma BuiltSize(name: string, text: Option<seq<byte>>, members: seq<Member>, libs: Libraries)
    requires forall x :: x in members ==> SoundMember(x, libs)
    ensures |BuildPart(name, text, members, libs)| == Size(TextInfos(name, text, libs) + MemberInfos(members))
  {
    hide Archive, Size;
    var es := StoredManifest(name, text, libs) + StoredMembers(members, libs);
    forall e | e in es
      ensures Sound(e)
    {
      if e in StoredMembers(members, libs) {
        var i :| 0 <= i < |members| && StoredMembers(members, libs)[i] == e;
        assert members[i] in members;
      }
    }
    SizeIsExact(es);
    assert Infos(es) == TextInfos(name, text, libs) + MemberInfos(members);
  }

  // What an attempt records: the metadata as it was, the very bytes built from it,
  // within the cap.
  ghost predicate FaithfulEvent(e: Event, manifestName: Option<string>, maxBytes: nat, libs: Libraries) {
    && (e.doc.Some? ==> manifestName.Some?)
    && e.archive == BuildPart(if e.doc.Some? then manifestName.value else "", ManifestText(e.doc, e.store),
                              e.members, libs)
    && |e.archive| <= maxBytes && !e.outcome.TooLarge?
  }

  lemma EventIsFaithful(s: Sink, index: nat, name: string, doc: Option<Doc>, manifestName: Option<string>,
                        members: seq<Member>, libs: Libraries, fate: Fate)
    requires forall x :: x in members ==> SoundMember(x, libs)
    requires doc.Some? ==> manifestName.Some?
    requires if doc.Some?
             then FitsNow(manifestName.value, Resolve(doc.value, s.store), members, s.config.maxBytes, libs)
             else members != [] && Size(MemberInfos(members)) <= s.config.maxBytes
    ensures var path := if doc.Some? then manifestName.value else "";
            FaithfulEvent(EventOf(s, index, name, doc, path, members, libs, fate), manifestName, s.config.maxBytes,
                          libs)
  {
    hide JsonBytes, Resolve, Size, BuildPart;
    var path := if doc.Some? then manifestName.value else "";
    BuiltSize(path, ManifestText(doc, s.store), members, libs);
    if doc.None? {
      assert TextInfos(path, ManifestText(doc, s.store), libs) + MemberInfos(members) == MemberInfos(members);
    }
  }

  // What one pending part's turn leaves behind.
  ghost predicate Turned(s: Sink, u: Sink, going: bool, doc: Doc, index: nat, name: string, members: seq<Member>,
                         manifestName: Option<string>, libs: Libraries)
  {
    && Touches(s, u, name, members) && (Unconfirmed(s, members) ==> PartOk(u, name, members))
    && (going <==> name in u.attempted)
    && (u.events == s.events ==> going && members == [] && u.downloads == s.downloads)
    && (u.events != s.events ==>
          && |u.events| == |s.events| + 1 && u.events[..|s.events|] == s.events
          && NewEvent(s, u, u.events[|s.events|], doc, index, name, members, manifestName, libs))
  }

  ghost predicate NewEvent(s: Sink, u: Sink, e: Event, doc: Doc, index: nat, name: string, members: seq<Member>,
                           manifestName: Option<string>, libs: Libraries)
  {
    && e.index == index && e.name == name && e.members == members && e.store == Cleared(s.store, members)
    && (e.doc.Some? ==> e.doc == Some(doc))
    && FaithfulEvent(e, manifestName, s.config.maxBytes, libs)
    && (name in u.downloads <==> e.outcome.Attached?)
    && (name in u.attempted <==> e.outcome.Attached? || e.outcome.Refused?)
  }

  lemma PendingTurn(s: Sink, doc: Doc, index: nat, name: string, members: seq<Member>, manifestName: Option<string>,
                    manifestFilename: string, libs: Libraries, fate: Fate)
    requires forall m :: m in Metas(members) ==> m in s.store
    requires name !in s.downloads && name !in s.attempted
    requires forall x :: x in members ==> SoundMember(x, libs)
    requires WithinCap(MemberInfos(members), s.config.maxBytes)
    ensures var (u, going) := AttemptPending(s, doc, index, name, members, manifestName, manifestFilename, libs, fate);
            Turned(s, u, going, doc, index, name, members, manifestName, libs)
  {
    hide EventOf, FitsNow, BuildPart, Resolve, JsonBytes, Cleared, Attempt, StoreTouched, Turned, Size, SoundMember;
    var pending := s.(store := Cleared(s.store, members));
    ClearedTouches(s.store, members);
    assert Touches(s, pending, name, members);
    var fits := manifestName.Some?
        && FitsNow(manifestName.value, Resolve(doc, pending.store), members, s.config.maxBytes, libs);
    var ready := if manifestName.Some? && !fits then
                   pending.(warnings := s.warnings + [ManifestOutgrew(manifestFilename)]) else pending;
    if members == [] && !fits {
      SkippedTurn(s, ready, doc, index, name, manifestName, libs);
    } else {
      var chosen := if fits then Some(doc) else None;
      var event := EventOf(ready, index, name, chosen, if fits then manifestName.value else "", members, libs, fate);
      PendingAttempt(s, ready, event, doc, index, name, members, manifestName, libs, fate, chosen);
    }
  }

  lemma SkippedTurn(s: Sink, ready: Sink, doc: Doc, index: nat, name: string, manifestName: Option<string>,
                    libs: Libraries)
    requires Touches(s, ready, name, [])
    requires ready.confirmed == s.confirmed && ready.attempted == s.attempted && ready.downloads == s.downloads
    requires ready.events == s.events
    ensures Turned(s, ready.(attempted := s.attempted + {name}), true, doc, index, name, [], manifestName, libs)
  {
    hide StoreTouched;
  }

  lemma PendingAttempt(s: Sink, ready: Sink, event: Event, doc: Doc, index: nat, name: string, members: seq<Member>,
                       manifestName: Option<string>, libs: Libraries, fate: Fate, chosen: Option<Doc>)
    requires Touches(s, ready, name, members) && ready.store == Cleared(s.store, members)
    requires ready.confirmed == s.confirmed && ready.attempted == s.attempted && ready.downloads == s.downloads
    requires ready.events == s.events
    requires forall m :: m in Metas(members) ==> m in s.store
    requires name !in s.downloads && name !in s.attempted
    requires forall x :: x in members ==> SoundMember(x, libs)
    requires chosen.None? || (chosen == Some(doc) && manifestName.Some?)
    requires if chosen.Some?
             then FitsNow(manifestName.value, Resolve(doc, ready.store), members, s.config.maxBytes, libs)
             else members != [] && Size(MemberInfos(members)) <= s.config.maxBytes
    requires event == EventOf(ready, index, name, chosen, if chosen.Some? then manifestName.value else "",
                              members, libs, fate)
    ensures Turned(s, Attempt(ready, event).0, Attempt(ready, event).1, doc, index, name, members, manifestName, libs)
  {
    hide FitsNow, BuildPart, Resolve, JsonBytes, Cleared, Attempt;
    EventIsFaithful(ready, index, name, chosen, manifestName, members, libs, fate);
    AttemptTouches(ready, event);
    var u := Attempt(ready, event).0;
    TouchesCompose(s, ready, u, name, members);
    assert u.events == s.events + [event];
  }

  // ----- the log against the answers --------------------------------------------------

  ghost predicate AllAnswered(s: Sink, plan: Plan) {
    forall i :: 0 <= i < |plan.parts| ==> NameAt(s, plan, i) in s.attempted
  }

  predicate Settled(e: Event) { e.outcome.Attached? || e.outcome.Refused? }

  ghost predicate EventSound(s: Sink, plan: Plan, e: Event, libs: Libraries) {
    && e.index < |plan.parts| && e.name == NameAt(s, plan, e.index) && e.members == plan.parts[e.index]
    && (e.doc.Some? ==> e.index == 0)
    && FaithfulEvent(e, plan.manifestName, s.config.maxBytes, libs)
    && (e.outcome.Attached? ==> e.name in s.downloads)
    && (e.outcome.Refused? ==> e.name in s.attempted && e.name !in s.downloads)
  }

  ghost predicate EventsSound(s: Sink, plan: Plan, libs: Libraries) {
    && (forall e :: e in s.events ==> EventSound(s, plan, e, libs))
    && (forall j, k :: 0 <= j < k < |s.events| && Settled(s.events[j]) ==> s.events[k].name != s.events[j].name)
    && (forall name :: name in s.downloads ==> Sent(s, name))
  }

  ghost predicate Sent(s: Sink, name: string) {
    exists e :: e in s.events && e.outcome.Attached? && e.name == name
  }

  // The plan, the answers and the log, in order.
  ghost predicate PlanOrder(s: Sink, plan: Plan, libs: Libraries) {
    PlanSound(s, plan) && AnswersOk(s) && EventsSound(s, plan, libs)
  }

  lemma OtherNames(s: Sink, plan: Plan, i: nat, j: nat)
    requires i < |plan.parts| && j < |plan.parts| && i != j
    ensures NameAt(s, plan, i) != NameAt(s, plan, j)
  {
    if NameAt(s, plan, i) == NameAt(s, plan, j) { PartNamesDistinct(s.config.filename, i, j, |plan.parts|); }
  }
}
