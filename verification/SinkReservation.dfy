/** The room reserved for the manifest is always enough: the part that carries it
    never has to leave it out, whatever became of the other parts. */
module SinkReservation {
  import opened Basics
  import opened Json
  import opened ZipLayout
  import opened Manifest
  import opened Packing
  import opened SinkModel
  import opened SinkInvariants
  import opened SinkOrder

  // ----- flags only ---------------------------------------------------------------

  // A metadata dictionary with its flag set, taken away or left alone.
  predicate MarkOf(before: seq<Field>, after: seq<Field>) {
    after == before
    || (IsMetadata(before) && (after == Put(before, FLAG, Bool(true)) || after == Drop(before, FLAG)))
  }

  predicate Marks(before: Store, after: Store) {
    after.Keys == before.Keys && forall m :: m in before ==> MarkOf(before[m], after[m])
  }

  lemma {:induction false} DropInherits(fs: seq<Field>, key: string)
    ensures forall f :: f in Drop(fs, key) ==> f in fs
    ensures DistinctKeys(fs) ==> DistinctKeys(Drop(fs, key))
    ensures TidyFields(fs) ==> TidyFields(Drop(fs, key))
  {
    if fs != [] {
      DropInherits(fs[1..], key);
      var r := Drop(fs[1..], key);
      if fs[0].key != key {
        var t := Drop(fs, key);
        assert t[1..] == r;
        if DistinctKeys(fs) {
          assert DistinctKeys(fs[1..]);
          forall i, j | 0 <= i < j < |t|
            ensures t[i].key != t[j].key
          {
            if i == 0 {
              assert r[j - 1] in fs[1..];
              var k :| 0 <= k < |fs[1..]| && fs[1..][k] == r[j - 1];
              assert fs[k + 1] == t[j];
            }
          }
        }
      }
    }
  }

  lemma {:induction false} PutInherits(fs: seq<Field>, key: string, v: Json)
    ensures forall f :: f in Put(fs, key, v) ==> f in fs || f == Field(key, v)
    ensures DistinctKeys(fs) ==> DistinctKeys(Put(fs, key, v))
    ensures TidyFields(fs) && Tidy(v) ==> TidyFields(Put(fs, key, v))
  {
    if fs == [] {
      assert Put(fs, key, v)[1..] == [];
    } else if fs[0].key == key {
      DropInherits(fs[1..], key);
      assert Put(fs, key, v)[1..] == Drop(fs[1..], key);
      if DistinctKeys(fs) { PutFirstDistinct(fs, key, v); }
    } else {
      PutInherits(fs[1..], key, v);
      var t := Put(fs, key, v);
      assert t[1..] == Put(fs[1..], key, v);
      if DistinctKeys(fs) {
        assert DistinctKeys(fs[1..]);
        forall j | 1 <= j < |t|
          ensures t[0].key != t[j].key
        {
          assert t[1..][j - 1] == t[j] && t[j] in t[1..];
          if t[j] != Field(key, v) {
            var k :| 0 <= k < |fs[1..]| && fs[1..][k] == t[j];
            assert fs[k + 1] == t[j];
          }
        }
        forall i, j | 1 <= i < j < |t| ensures t[i].key != t[j].key { assert t[1..][i - 1].key != t[1..][j - 1].key; }
      }
    }
  }

  lemma PutFirstDistinct(fs: seq<Field>, key: string, v: Json)
    requires fs != [] && fs[0].key == key && DistinctKeys(fs)
    ensures DistinctKeys(Put(fs, key, v))
  {
    AbsentDrop(fs[1..], key);
  }

  lemma {:induction false} AbsentDrop(fs: seq<Field>, key: string)
    requires forall i :: 0 <= i < |fs| ==> fs[i].key != key
    ensures Drop(fs, key) == fs
  {
    if fs != [] { AbsentDrop(fs[1..], key); }
  }

  lemma MarkKeeps(before: seq<Field>, after: seq<Field>)
    requires MarkOf(before, after)
    ensures FlagChange(before, after)
    ensures TidyDict(before) ==> TidyDict(after)
  {
    if after != before {
      DropPut(before, FLAG, Bool(true));
      DropDrop(before, FLAG);
      DropInherits(before, FLAG);
      PutInherits(before, FLAG, Bool(true));
      FindPut(before, FLAG, Bool(true), FLAG);
      FindDrop(before, FLAG, FLAG);
    }
  }

  // ----- a manifest stays tidy ------------------------------------------------------

  lemma {:induction false} TidyKept(doc: Doc, before: Store, after: Store)
    requires Marks(before, after) && Tidy(Resolve(doc, before))
    ensures Tidy(Resolve(doc, after))
    decreases doc, 1
  {
    match doc
    case Plain(_) =>
    case Array(items) => TidyItemsKept(items, before, after);
    case Object(entries) => TidyEntriesKept(entries, before, after);
    case Shared(m) => if m in before { MarkKeeps(before[m], after[m]); }
  }

  lemma {:induction false} TidyItemsKept(items: seq<Doc>, before: Store, after: Store)
    requires Marks(before, after) && TidyItems(ResolveItems(items, before))
    ensures TidyItems(ResolveItems(items, after))
    decreases items, 0
  {
    if items != [] {
      assert ResolveItems(items, before)[1..] == ResolveItems(items[1..], before);
      assert ResolveItems(items, after)[1..] == ResolveItems(items[1..], after);
      TidyKept(items[0], before, after);
      TidyItemsKept(items[1..], before, after);
    }
  }

  lemma {:induction false} TidyValuesKept(entries: seq<Entry>, before: Store, after: Store)
    requires Marks(before, after) && TidyFields(ResolveEntries(entries, before))
    ensures TidyFields(ResolveEntries(entries, after))
    decreases entries, 0
  {
    if entries != [] {
      assert ResolveEntries(entries, before)[1..] == ResolveEntries(entries[1..], before);
      assert ResolveEntries(entries, after)[1..] == ResolveEntries(entries[1..], after);
      TidyKept(entries[0].value, before, after);
      TidyValuesKept(entries[1..], before, after);
    }
  }

  lemma {:induction false} ResolvedKeys(entries: seq<Entry>, store: Store, i: nat)
    requires i < |entries|
    ensures ResolveEntries(entries, store)[i].key == entries[i].key
  {
    if i > 0 { ResolvedKeys(entries[1..], store, i - 1); }
  }

  // A plain flag reads the same at both moments.
  lemma {:induction false} PlainFlag(entries: seq<Entry>, before: Store, after: Store, key: string)
    requires Find(ResolveEntries(entries, before), key).Some? && Find(ResolveEntries(entries, before), key).value.Bool?
    ensures Find(ResolveEntries(entries, after), key) == Find(ResolveEntries(entries, before), key)
  {
    assert ResolveEntries(entries, before)[1..] == ResolveEntries(entries[1..], before);
    assert ResolveEntries(entries, after)[1..] == ResolveEntries(entries[1..], after);
    if entries[0].key != key { PlainFlag(entries[1..], before, after, key); }
  }

  lemma {:induction false} TidyEntriesKept(entries: seq<Entry>, before: Store, after: Store)
    requires Marks(before, after) && TidyDict(ResolveEntries(entries, before))
    ensures TidyDict(ResolveEntries(entries, after))
    decreases entries, 1
  {
    var was, later := ResolveEntries(entries, before), ResolveEntries(entries, after);
    TidyValuesKept(entries, before, after);
    forall i, j | 0 <= i < j < |entries|
      ensures later[i].key != later[j].key
    {
      ResolvedKeys(entries, before, i); ResolvedKeys(entries, before, j);
      ResolvedKeys(entries, after, i); ResolvedKeys(entries, after, j);
    }
    SameKeys(entries, before, after, "name");
    SameKeys(entries, before, after, "bytes");
    SameKeys(entries, before, after, "sha256");
    SameKeys(entries, before, after, FLAG);
    if IsMetadata(was) && Find(was, FLAG).Some? { PlainFlag(entries, before, after, FLAG); }
  }

  // ----- the reservation as an invariant ----------------------------------------------

  // Part 1 has room for the manifest as it may read later: `before` is the metadata
  // the plan was made with.
  ghost predicate ReservedAt(s: Sink, doc: Doc, before: Store) {
    && s.plan.Some? && s.plan.value.manifestName.Some? && |s.plan.value.parts| > 0
    && Shareds(doc) <= s.store.Keys
    && Size([BoundInfo(s.plan.value.manifestName.value, Resolve(doc, before))] + MemberInfos(s.plan.value.parts[0]))
       <= s.config.maxBytes
    && OnlyFlagsChanged(Shareds(doc), before, s.store)
    && Tidy(Resolve(doc, s.store))
  }

  lemma ReservedFits(s: Sink, doc: Doc, before: Store, libs: Libraries)
    requires ReservedAt(s, doc, before) && Bounded(libs)
    ensures FitsNow(s.plan.value.manifestName.value, Resolve(doc, s.store), s.plan.value.parts[0], s.config.maxBytes,
                    libs)
  {
    hide Size, JsonBytes, Resolve;
    var path, members := s.plan.value.manifestName.value, s.plan.value.parts[0];
    ReservationIsSound(path, doc, before, s.store, libs);
    var small := CompressedInfo(path, JsonBytes(Resolve(doc, s.store)), libs);
    var large := BoundInfo(path, Resolve(doc, before));
    LeadMonotone(small, large, MemberInfos(members));
  }

  lemma LeadMonotone(small: ZipInfo, large: ZipInfo, infos: seq<ZipInfo>)
    requires AtMost(small, large)
    ensures Size([small] + infos) <= Size([large] + infos)
  {
    hide Size;
    SizeMonotone([small] + infos, [large] + infos);
  }

  lemma ReservedStep(s: Sink, u: Sink, doc: Doc, before: Store)
    requires ReservedAt(s, doc, before) && Marks(s.store, u.store) && u.plan == s.plan && u.config == s.config
    ensures ReservedAt(u, doc, before)
  {
    hide Size, JsonBytes, Tidy, BoundInfo, FlagChange, MarkOf;
    TidyKept(doc, s.store, u.store);
    forall m | m in Shareds(doc)
      ensures FlagChange(Content(before, m), Content(u.store, m))
    {
      assert MarkOf(s.store[m], u.store[m]);
      MarkKeeps(s.store[m], u.store[m]);
      FlagChangeTransitive(Content(before, m), s.store[m], u.store[m]);
    }
  }

  lemma FlagChangeTransitive(a: seq<Field>, b: seq<Field>, c: seq<Field>)
    requires FlagChange(a, b) && FlagChange(b, c)
    ensures FlagChange(a, c)
  {
  }

  ghost predicate Describes(store: Store, members: seq<Member>) {
    forall m :: m in Metas(members) && m in store ==> IsMetadata(store[m])
  }

  lemma MarkedMarks(store: Store, members: seq<Member>)
    requires Describes(store, members)
    ensures Marks(store, Marked(store, members)) && Marks(store, Cleared(store, members))
    ensures Describes(Cleared(store, members), members)
  {
    ClearedTouches(store, members);
  }

  lemma Unmarked(store: Store)
    ensures Marks(store, store)
  {
  }

  // ----- one turn never warns -----------------------------------------------------------

  // The turn kept the reservation and said nothing about an outgrown manifest.
  ghost predicate Quiet(s: Sink, u: Sink, doc: Doc, before: Store) {
    ReservedAt(u, doc, before) && u.warnings == s.warnings
  }

  lemma QuietAttempt(s: Sink, event: Event, doc: Doc, before: Store)
    requires ReservedAt(s, doc, before) && Describes(s.store, event.members)
    ensures Quiet(s, Attempt(s, event).0, doc, before)
  {
    hide ReservedAt, Marks, Marked, Cleared, Describes;
    var u := Attempt(s, event).0;
    assert u.plan == s.plan && u.config == s.config && u.warnings == s.warnings;
    assert u.store == s.store || u.store == Marked(s.store, event.members)
           || u.store == Cleared(s.store, event.members);
    MarkedMarks(s.store, event.members);
    Unmarked(s.store);
    ReservedStep(s, Attempt(s, event).0, doc, before);
  }

  lemma ReservedHasManifest(s: Sink, doc: Doc, before: Store)
    requires ReservedAt(s, doc, before)
    ensures s.plan.Some? && s.plan.value.manifestName.Some? && |s.plan.value.parts| > 0
  {
  }

  lemma QuietPending(s: Sink, plan: Plan, doc: Doc, i: nat, name: string, before: Store, libs: Libraries, fate: Fate)
    requires ReservedAt(s, doc, before) && Bounded(libs) && s.plan == Some(plan) && i < |plan.parts|
    requires Describes(s.store, plan.parts[i])
    ensures Quiet(s, AttemptPending(s, doc, i, name, plan.parts[i], if i == 0 then plan.manifestName else None,
                                    plan.manifestFilename, libs, fate).0, doc, before)
  {
    hide Describes, FitsNow, BuildPart, ManifestText, Attempt, Cleared, Marks, Resolve, Size, ReservedAt;
    assert s.plan.value.manifestName.Some? by { ReservedHasManifest(s, doc, before); }
    var members := plan.parts[i];
    var pending := s.(store := Cleared(s.store, members));
    MarkedMarks(s.store, members);
    ReservedStep(s, pending, doc, before);
    ReservedFits(pending, doc, before, libs);
    if i == 0 {
      QuietAttempt(pending, EventOf(pending, i, name, Some(doc), plan.manifestName.value, members, libs, fate),
                   doc, before);
    } else if members != [] {
      QuietAttempt(pending, EventOf(pending, i, name, None, "", members, libs, fate), doc, before);
    } else {
      QuietSkip(pending, name, doc, before);
    }
  }

  lemma QuietSkip(s: Sink, name: string, doc: Doc, before: Store)
    requires ReservedAt(s, doc, before)
    ensures Quiet(s, s.(attempted := s.attempted + {name}), doc, before)
  {
    hide Size, Resolve, Tidy;
  }

  lemma QuietTurn(s: Sink, plan: Plan, doc: Doc, i: nat, before: Store, libs: Libraries, env: nat -> Fate)
    requires ReservedAt(s, doc, before) && Bounded(libs) && s.plan == Some(plan) && i < |plan.parts|
    requires Describes(s.store, plan.parts[i])
    ensures Quiet(s, FinishPart(s, plan, doc, i, libs, env).0, doc, before)
  {
    hide ReservedAt, AttemptPending, PartFilename, Marks, Describes;
    var name := PartFilename(s.config.filename, i, |plan.parts|);
    MarkedMarks(s.store, plan.parts[i]);
    if name in s.downloads {
      ReservedStep(s, Confirm(s, plan.parts[i]), doc, before);
    } else if name in s.attempted {
      ReservedStep(s, Missing(s, plan.parts[i]), doc, before);
    } else {
      QuietPending(s, plan, doc, i, name, before, libs, env(|s.events|));
    }
  }

  lemma PlannedDescribes(s: Sink, plan: Plan, i: nat, libs: Libraries)
    requires StagedOk(s, libs) && PlanSound(s, plan) && i < |plan.parts|
    ensures Describes(s.store, plan.parts[i])
  {
    hide Fits, AllStaged;
  }

  lemma {:induction false} QuietLoop(s: Sink, plan: Plan, doc: Doc, k: nat, before: Store, libs: Libraries,
                                     env: nat -> Fate)
    requires k <= |plan.parts| && LoopOrder(s, plan, libs) && s.plan == Some(plan)
    requires ReservedAt(s, doc, before) && Bounded(libs)
    ensures Quiet(s, FinishFrom(s, plan, doc, k, libs, env).0, doc, before)
    decreases |plan.parts| - k
  {
    hide PartFilename, FinishPart, EventsSound, PlanSound, AnswersOk, StagedOk, StoreTouched, ReservedAt, Describes;
    if k == |plan.parts| {
      QuietEnd(s, doc, before);
    } else {
      var i := Position(k, |plan.parts|);
      var (u, going) := FinishPart(s, plan, doc, i, libs, env);
      PlannedDescribes(s, plan, i, libs);
      QuietTurn(s, plan, doc, i, before, libs, env);
      FinishPartOrders(s, plan, doc, i, libs, env);
      if going {
        QuietLoop(u, plan, doc, k + 1, before, libs, env);
      }
    }
  }

  lemma QuietEnd(s: Sink, doc: Doc, before: Store)
    requires ReservedAt(s, doc, before)
    ensures Quiet(s, s.(finished := true, closed := true), doc, before)
  {
    hide Size, Resolve, Tidy;
  }

  // ----- every later operation ----------------------------------------------------------

  lemma QuietFinish(s: Sink, manifestFilename: string, doc: Doc, known: Store, before: Store, libs: Libraries,
                    env: nat -> Fate)
    requires Orderly(s, libs) && ReservedAt(s, doc, before) && Bounded(libs)
    ensures Quiet(s, Finish(s, manifestFilename, doc, known, libs, env).0, doc, before)
  {
    hide PlanOrder, StagedOk, FinishFrom, PartFilename, ReservedAt;
    ReservedHasManifest(s, doc, before);
    if !s.finished && !s.closed {
      var begun := Begun(s, known);
      BegunOrders(s, known, libs);
      QuietBegun(s, known, doc, before);
      if s.plan.value.manifestFilename == manifestFilename {
        QuietRun(begun, doc, before, libs, env);
      }
    }
  }

  lemma QuietRun(s: Sink, doc: Doc, before: Store, libs: Libraries, env: nat -> Fate)
    requires s.plan.Some? && StagedOk(s, libs) && PlanOrder(s, s.plan.value, libs)
    requires ReservedAt(s, doc, before) && Bounded(libs)
    ensures Quiet(s, FinishFrom(s, s.plan.value, doc, 0, libs, env).0, doc, before)
  {
    hide PlanOrder, StagedOk, FinishFrom, PartFilename, ReservedAt;
    QuietLoop(s, s.plan.value, doc, 0, before, libs, env);
  }

  // Objects the sink already knows read as it last left them.
  lemma QuietBegun(s: Sink, known: Store, doc: Doc, before: Store)
    requires ReservedAt(s, doc, before)
    ensures Quiet(s, s.(finalizing := true, store := known + s.store), doc, before)
  {
    hide Size, BoundInfo, FlagChange;
    var t := known + s.store;
    forall m | m in Shareds(doc) ensures Content(t, m) == Content(s.store, m) { assert m in s.store; }
    SameContent(doc, s.store, t);
  }

  lemma {:induction false} SameContent(doc: Doc, a: Store, b: Store)
    requires forall m :: m in Shareds(doc) ==> Content(a, m) == Content(b, m)
    ensures Resolve(doc, a) == Resolve(doc, b)
    decreases doc, 1
  {
    match doc
    case Plain(_) =>
    case Array(items) => SameItems(items, a, b);
    case Object(entries) => SameEntries(entries, a, b);
    case Shared(m) =>
  }

  lemma {:induction false} SameItems(items: seq<Doc>, a: Store, b: Store)
    requires forall m :: m in SharedItems(items) ==> Content(a, m) == Content(b, m)
    ensures ResolveItems(items, a) == ResolveItems(items, b)
    decreases items, 0
  {
    if items != [] {
      SameContent(items[0], a, b);
      SameItems(items[1..], a, b);
    }
  }

  lemma {:induction false} SameEntries(entries: seq<Entry>, a: Store, b: Store)
    requires forall m :: m in SharedEntries(entries) ==> Content(a, m) == Content(b, m)
    ensures ResolveEntries(entries, a) == ResolveEntries(entries, b)
    decreases entries, 0
  {
    if entries != [] {
      SameContent(entries[0].value, a, b);
      SameEntries(entries[1..], a, b);
    }
  }

  lemma QuietClose(s: Sink, doc: Doc, before: Store, libs: Libraries)
    requires Orderly(s, libs) && ReservedAt(s, doc, before)
    ensures Quiet(s, Close(s), doc, before)
  {
    hide PlanOrder, NamedOnce, Live, AllStaged, ReservedAt, Marks;
    if s.finished {
      Unmarked(s.store);
      ReservedStep(s, Close(s), doc, before);
    } else {
      var live := Live(AllStaged(s.groups), s.confirmed);
      forall m | m in Metas(live) && m in s.store
        ensures IsMetadata(s.store[m])
      {
        CloseMarks(s, m, libs);
      }
      MarkedMarks(s.store, live);
      ReservedStep(s, Close(s), doc, before);
    }
  }

  lemma QuietOp(s: Sink, op: Op, doc: Doc, before: Store, libs: Libraries, env: nat -> Fate)
    requires Orderly(s, libs) && ReservedAt(s, doc, before) && Bounded(libs)
    requires op.FinishOp? ==> op.doc == doc
    ensures Quiet(s, Apply(s, op, libs, env), doc, before)
  {
    hide StagedOk, PlanOrder, NamedOnce, ReservedAt, Finish, Close;
    ReservedHasManifest(s, doc, before);
    match op
    case AddOp(filename, _, _, _, _, _) => assert AddRefusal(s, filename).Some?;
    case FinishOp(manifestFilename, _, known) => QuietFinish(s, manifestFilename, doc, known, before, libs, env);
    case CloseOp => QuietClose(s, doc, before, libs);
  }

  lemma {:induction false} QuietOps(t: Trace, config: Config, j: nat, k: nat, doc: Doc, before: Store,
                                    libs: Libraries, env: nat -> Fate)
    requires IsRun(t, config, libs, env) && j <= k < |t.states|
    requires ReservedAt(t.states[j], doc, before) && Bounded(libs)
    requires forall i: nat :: j <= i < k && t.ops[i].FinishOp? ==> t.ops[i].doc == doc
    ensures Quiet(t.states[j], t.states[k], doc, before)
    decreases k
  {
    hide Orderly, ReservedAt, Apply, Bounded;
    if j < k {
      QuietOps(t, config, j, k - 1, doc, before, libs, env);
      RunOrderly(t, config, libs, env, k - 1);
      assert StepAt(t, k - 1, libs, env);
      QuietOp(t.states[k - 1], t.ops[k - 1], doc, before, libs, env);
    }
  }

  // ----- the plan reserves --------------------------------------------------------------

  // The plan would be split, and the manifest's bound fits a part.
  predicate SplitWithRoom(groups: seq<Group>, name: string, manifest: Json, maxBytes: nat, libs: Libraries) {
    var info := CompressedInfo(name, JsonBytes(manifest), libs);
    && Size([info]) <= maxBytes && |Pack(groups, [info], maxBytes)| > 1
    && Size([BoundInfo(name, manifest)]) <= maxBytes
  }

  // The metadata and manifest a plan is made from, once oversize groups are flagged.
  function PlanningStore(s: Sink, known: Store): Store {
    AfterPlan(s.(finalizing := true, store := known + s.store)).store
  }

  lemma PlanReserves(s: Sink, manifestFilename: string, doc: Doc, libs: Libraries)
    requires SplitWithRoom(PlanningGroups(s), ManifestPath(s.config, manifestFilename),
                           Resolve(doc, AfterPlan(s).store), s.config.maxBytes, libs)
    requires Shareds(doc) <= s.store.Keys && Tidy(Resolve(doc, AfterPlan(s).store))
    ensures ReservedAt(Prepare(s, manifestFilename, doc, libs), doc, AfterPlan(s).store)
    ensures forall w :: w in Prepare(s, manifestFilename, doc, libs).warnings && w.ManifestOutgrew? ==> w in s.warnings
  {
    hide Size, JsonBytes, Resolve, Tidy, Pack, Kept, Dropped, BoundInfo;
    var before := AfterPlan(s).store;
    var path := ManifestPath(s.config, manifestFilename);
    var bound := BoundInfo(path, Resolve(doc, before));
    var groups := PlanningGroups(s);
    KeptFits(s.groups, s.addFailed, s.config.maxBytes);
    PackFits(groups, [bound], s.config.maxBytes);
    var parts := Pack(groups, [bound], s.config.maxBytes);
    assert WithinCap(Lead([bound], 0) + MemberInfos(parts[0]), s.config.maxBytes);
  }

  // Once a split plan has been made with room for the manifest's bound, no later call,
  // whatever the callback answers, finds the manifest outgrown: the branch that would
  // leave it out never runs.
  lemma ManifestNeverOutgrows(t: Trace, config: Config, libs: Libraries, env: nat -> Fate, j: nat, k: nat)
    requires Bounded(libs) && IsRun(t, config, libs, env) && j < k < |t.states|
    requires t.ops[j].FinishOp?
      && PlansWithRoom(t.states[j], t.ops[j].manifestFilename, t.ops[j].doc, t.ops[j].known, libs)
    requires forall i: nat :: j <= i < k && t.ops[i].FinishOp? ==> t.ops[i].doc == t.ops[j].doc
    ensures forall w :: w in t.states[k].warnings ==> !w.ManifestOutgrew?
  {
    hide Orderly, ReservedAt, PlansWithRoom, Bounded, Finish;
    var s, op := t.states[j], t.ops[j];
    RunOrderly(t, config, libs, env, j);
    assert StepAt(t, j, libs, env);
    FirstFinishReserves(s, op.manifestFilename, op.doc, op.known, libs, env);
    QuietOps(t, config, j + 1, k, op.doc, PlanningStore(s, op.known), libs, env);
  }

  // A call of `finish` on an open sink that makes such a plan.
  predicate PlansWithRoom(s: Sink, manifestFilename: string, doc: Doc, known: Store, libs: Libraries) {
    var manifest := Resolve(doc, PlanningStore(s, known));
    && s.plan.None? && !s.closed && Shareds(doc) <= known.Keys + s.store.Keys && Tidy(manifest)
    && SplitWithRoom(PlanningGroups(s), ManifestPath(s.config, manifestFilename), manifest, s.config.maxBytes, libs)
  }

  lemma FirstFinishReserves(s: Sink, manifestFilename: string, doc: Doc, known: Store, libs: Libraries,
                            env: nat -> Fate)
    requires Orderly(s, libs) && Bounded(libs) && PlansWithRoom(s, manifestFilename, doc, known, libs)
    ensures var u := Finish(s, manifestFilename, doc, known, libs, env).0;
            && ReservedAt(u, doc, PlanningStore(s, known))
            && forall w :: w in u.warnings ==> !w.ManifestOutgrew?
  {
    hide PlanOrder, StagedOk, NamedOnce, FinishFrom, PartFilename, ReservedAt, SplitWithRoom, Tidy, Prepare, AfterPlan;
    var begun := Begun(s, known);
    BegunOrders(s, known, libs);
    PrepareOrders(begun, manifestFilename, doc, libs);
    PlanReserves(begun, manifestFilename, doc, libs);
    QuietRun(Prepare(begun, manifestFilename, doc, libs), doc, PlanningStore(s, known), libs, env);
  }
}
