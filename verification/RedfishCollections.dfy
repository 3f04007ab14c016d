/** Reading a whole Redfish collection: inlined by `$expand`, or link by link, or refused. */
module RedfishCollections {
  import opened Basics
  import opened Json
  import opened Lex
  import opened Payload
  import opened RedfishReads

  const EXPAND := "?$expand=.($levels=1)"

  // ----- payloads -------------------------------------------------------------------

  function Members(payload: Json): seq<Json> { Dicts(At(payload, "Members")) }

  // `_text`: what is neither null nor blank.
  function TextOf(v: Json, w: World): Option<string> {
    if v == Null || Strip(StrOf(v, w.str)) == "" then None else Some(Strip(StrOf(v, w.str)))
  }

  function StripSlashes(s: string): string {
    if s != "" && s[|s| - 1] == '/' then StripSlashes(s[..|s| - 1]) else s
  }

  function LastSegment(s: string): string {
    if First(s, '/') == |s| then s else LastSegment(s[First(s, '/') + 1..])
  }

  // `_leaf_id`: the last path segment, without query and fragment.
  function LeafId(link: string): string {
    var path := link[..First(link, '?')];
    LastSegment(StripSlashes(path[..First(path, '#')]))
  }

  // `_member_id`
  function MemberId(member: Json, w: World): Option<string> {
    if TextOf(At(member, "Id"), w).Some? then TextOf(At(member, "Id"), w)
    else if TextOf(At(member, "MemberId"), w).Some? then TextOf(At(member, "MemberId"), w)
    else if Truthy(At(member, "@odata.id")) then Some(LeafId(StrOf(At(member, "@odata.id"), w.str)))
    else None
  }

  // `_fenced_link`: a member without a link is passed over, a refused link fails the read.
  function FencedLink(link: Json, w: World): Result<Option<string>, Failure> {
    if link == Null then Ok(None)
    else
      match w.fence(link)
      case Some(path) => Ok(Some(path))
      case None => Err(LinkRefused)
  }

  function LinksOf(members: seq<Json>, w: World): Result<seq<string>, Failure> {
    if members == [] then Ok([])
    else
      match (FencedLink(At(members[0], "@odata.id"), w), LinksOf(members[1..], w))
      case (Err(e), _) => Err(e)
      case (_, Err(e)) => Err(e)
      case (Ok(None), Ok(rest)) => Ok(rest)
      case (Ok(Some(link)), Ok(rest)) => Ok([link] + rest)
  }

  // `_expanded`: every member is a resource, not a bare link.
  predicate Expanded(members: seq<Json>) {
    forall m :: m in members ==> m.Dict? && exists i :: 0 <= i < |m.fields| && m.fields[i].key != "@odata.id"
  }

  // `_expand_advertised`: None when the service root is silent.
  function ExpandAdvertised(root: Json): Option<bool> {
    var expand := At(At(root, "ProtocolFeaturesSupported"), "ExpandQuery");
    var all, noLinks := At(expand, "ExpandAll"), At(expand, "NoLinks");
    if !all.Bool? && !noLinks.Bool? then None else Some(Truthy(all) || Truthy(noLinks))
  }

  // ----- kept and excluded --------------------------------------------------------------

  predicate Out<T>(item: T, id: T -> Option<string>, exclude: set<string>) {
    id(item).Some? && Lower(id(item).value) in exclude
  }

  function Keeps<T>(items: seq<T>, id: T -> Option<string>, exclude: set<string>): (kept: seq<T>)
    ensures |kept| <= |items|
  {
    if items == [] then []
    else
      var last := items[|items| - 1];
      Keeps(items[..|items| - 1], id, exclude) + if Out(last, id, exclude) then [] else [last]
  }

  function Drops<T>(items: seq<T>, id: T -> Option<string>, exclude: set<string>): seq<string> {
    if items == [] then []
    else
      var last := items[|items| - 1];
      Drops(items[..|items| - 1], id, exclude) + if Out(last, id, exclude) then [id(last).value] else []
  }

  method Partition<T>(items: seq<T>, id: T -> Option<string>, exclude: set<string>)
    returns (kept: seq<T>, excluded: seq<string>)
    ensures kept == Keeps(items, id, exclude) && excluded == Drops(items, id, exclude)
  {
    kept, excluded := [], [];
    for i := 0 to |items|
      invariant kept == Keeps(items[..i], id, exclude) && excluded == Drops(items[..i], id, exclude)
    {
      assert items[..i + 1][..i] == items[..i];
      var itemId := id(items[i]);
      if itemId.Some? && Lower(itemId.value) in exclude {
        excluded := excluded + [itemId.value];
      } else {
        kept := kept + [items[i]];
      }
    }
    assert items[..|items|] == items;
  }

  ghost predicate Ascending(at: seq<nat>) {
    forall i, j :: 0 <= i < j < |at| ==> at[i] < at[j]
  }

  // The kept items stand at the positions `keptAt`, the excluded ids' at `outAt`: each
  // list in the order listed, and every item in exactly one of the two.
  ghost predicate Splits<T(!new)>(items: seq<T>, kept: seq<T>, excluded: seq<string>, id: T -> Option<string>,
                                  exclude: set<string>, keptAt: seq<nat>, outAt: seq<nat>)
  {
    && Ascending(keptAt) && Ascending(outAt)
    && |keptAt| == |kept| && |outAt| == |excluded| && |kept| + |excluded| == |items|
    && (forall i :: 0 <= i < |kept| ==>
          keptAt[i] < |items| && kept[i] == items[keptAt[i]] && !Out(kept[i], id, exclude))
    && (forall i :: 0 <= i < |excluded| ==>
          outAt[i] < |items| && Out(items[outAt[i]], id, exclude) && id(items[outAt[i]]) == Some(excluded[i]))
  }

  ghost predicate SplitInOrder<T(!new)>(items: seq<T>, kept: seq<T>, excluded: seq<string>,
                                        id: T -> Option<string>, exclude: set<string>)
  {
    exists keptAt, outAt :: Splits(items, kept, excluded, id, exclude, keptAt, outAt)
  }

  lemma {:induction false} PartitionSplits<T(!new)>(items: seq<T>, id: T -> Option<string>, exclude: set<string>)
    ensures SplitInOrder(items, Keeps(items, id, exclude), Drops(items, id, exclude), id, exclude)
  {
    if items == [] {
      assert Splits(items, [], [], id, exclude, [], []);
    } else {
      var n := |items| - 1;
      var kept, excluded := Keeps(items[..n], id, exclude), Drops(items[..n], id, exclude);
      PartitionSplits(items[..n], id, exclude);
      var keptAt, outAt :| Splits(items[..n], kept, excluded, id, exclude, keptAt, outAt);
      if Out(items[n], id, exclude) {
        assert kept + [] == kept;
        assert Splits(items, kept, excluded + [id(items[n]).value], id, exclude, keptAt, outAt + [n]);
      } else {
        assert excluded + [] == excluded;
        assert Splits(items, kept + [items[n]], excluded, id, exclude, keptAt + [n], outAt);
      }
    }
  }

  // ----- the fetch ------------------------------------------------------------------------

  // `precheck`: the caller passed the budget its reads are charged to.
  datatype Request = Request(
    path: string, ok404: bool, exclude: set<string>, precheck: bool, redact: Redactor,
    tryExpand: bool, anew: bool)

  datatype Strategy = Expand | Walked | Absent

  datatype Refusal = HttpRefusal(status: nat) | ReturnedAsLinks

  datatype Meta = Meta(
    strategy: Strategy, total: nat, excluded: seq<string>, advertised: Option<bool>, refused: Option<Refusal>)

  datatype Fetched = Fetched(members: Option<seq<Json>>, meta: Meta, raw: map<string, Json>)

  datatype Attempt = Untried | Refused(why: Refusal) | NotFound | Inlined(payload: Json)

  datatype Listing =
    | Whole(payload: Json, advertised: Option<bool>)
    | Nowhere(advertised: Option<bool>, refused: Option<Refusal>)
    | Links(collection: Json, links: seq<string>, advertised: Option<bool>, refused: Option<Refusal>)

  // The one GET that may inline the members. Only an answer over HTTP is a reason to
  // fall back; running out of budget, the fence or the network is not.
  function TryExpand(s: Reads, request: Request, advertised: Option<bool>, w: World)
    : (Reads, Result<Attempt, Failure>)
  {
    if advertised == Some(false) || !request.tryExpand then (s, Ok(Untried))
    else
      match Read(s, Key(request.path + EXPAND, true, request.anew), request.redact, w)
      case (t, Err(HttpFailure(status))) => (t, Ok(Refused(HttpRefusal(status))))
      case (t, Err(e)) => (t, Err(e))
      case (t, Ok(payload)) => (t, Judged(payload))
  }

  function Judged(payload: Json): Result<Attempt, Failure> {
    if payload == Null then Ok(NotFound)
    else if !payload.Dict? then Err(NoCollectionBody)
    else if Expanded(Members(payload)) then Ok(Inlined(payload))
    else Ok(Refused(ReturnedAsLinks))
  }

  // The plain collection: the links of its members.
  function ReadLinks(s: Reads, request: Request, advertised: Option<bool>, attempt: Attempt, w: World)
    : (Reads, Result<Listing, Failure>)
  {
    match Read(s, Key(request.path, request.ok404, request.anew), request.redact, w)
    case (t, Err(e)) => (t, Err(e))
    case (t, Ok(collection)) =>
      var refused := if attempt.Refused? then Some(attempt.why) else None;
      if collection == Null then (t, Ok(Nowhere(advertised, refused)))
      else
        match LinksOf(Members(collection), w)
        case Err(e) => (t, Err(e))
        case Ok(links) =>
          (t, Ok(Links(collection, links, advertised, if attempt.NotFound? then Some(HttpRefusal(404)) else refused)))
  }

  // How the collection lists its members, before any of them is read.
  function ListMembers(s: Reads, request: Request, w: World): (Reads, Result<Listing, Failure>) {
    match Read(s, Key(ROOT, false, false), w.scrub, w)
    case (t, Err(e)) => (t, Err(e))
    case (t, Ok(root)) =>
      match TryExpand(t, request, ExpandAdvertised(root), w)
      case (u, Err(e)) => (u, Err(e))
      case (u, Ok(Inlined(payload))) => (u, Ok(Whole(payload, ExpandAdvertised(root))))
      case (u, Ok(attempt)) => ReadLinks(u, request, ExpandAdvertised(root), attempt, w)
  }

  function InlineId(w: World): Json -> Option<string> { member => MemberId(member, w) }

  function LinkId(): string -> Option<string> { link => Some(LeafId(link)) }

  function Recorded(raw: map<string, Json>, links: seq<string>, members: seq<Json>, w: World): map<string, Json>
    requires |links| == |members|
  {
    if links == [] then raw
    else
      var n := |links| - 1;
      Recorded(raw, links[..n], members[..n], w)[links[n] := w.curate(members[n])]
  }

  predicate MayWalk(s: Reads, request: Request, needed: nat) {
    request.precheck && s.budget.Some? ==> needed <= Left(s).value
  }

  // `_fetch_collection`
  function Fetch(s: Reads, request: Request, w: World): (Reads, Result<Fetched, Failure>) {
    match ListMembers(s, request, w)
    case (t, Err(e)) => (t, Err(e))
    case (t, Ok(Whole(payload, advertised))) => (t, Ok(FetchedWhole(payload, advertised, request, w)))
    case (t, Ok(Nowhere(advertised, refused))) =>
      (t, Ok(Fetched(None, Meta(Absent, 0, [], advertised, refused), map[])))
    case (t, Ok(listing)) =>
      var kept := Keeps(listing.links, LinkId(), request.exclude);
      if !MayWalk(t, request, |kept|) then (t, Err(BudgetTooSmall(|kept|, Left(t).value)))
      else
        var (u, r) := Walk(t, kept, request.anew, request.redact, w);
        (u, FetchedWalk(listing, kept, r, request, w))
  }

  function FetchedWhole(payload: Json, advertised: Option<bool>, request: Request, w: World): Fetched {
    var listed := Members(payload);
    Fetched(Some(Keeps(listed, InlineId(w), request.exclude)),
            Meta(Expand, |listed|, Drops(listed, InlineId(w), request.exclude), advertised, None),
            map[request.path + EXPAND := w.curate(payload)])
  }

  function FetchedWalk(listing: Listing, kept: seq<string>, r: Result<seq<Json>, Failure>, request: Request, w: World)
    : Result<Fetched, Failure>
    requires listing.Links? && (r.Ok? ==> |r.value| == |kept|)
  {
    match r
    case Err(e) => Err(e)
    case Ok(members) =>
      Ok(Fetched(Some(members),
                 Meta(Walked, |listing.links|, Drops(listing.links, LinkId(), request.exclude),
                      listing.advertised, listing.refused),
                 Recorded(map[request.path := w.curate(listing.collection)], kept, members, w)))
  }

  // ----- the collector ----------------------------------------------------------------------

  // One step of the walk, and of what it records.
  lemma WalkAt(s: Reads, links: seq<string>, i: nat, anew: bool, redact: Redactor, w: World)
    requires i < |links|
    ensures Walk(s, links[i..], anew, redact, w)
         == match Read(s, Key(links[i], false, anew), redact, w)
            case (t, Err(e)) => (t, Err(e))
            case (t, Ok(payload)) =>
              var (u, rest) := Walk(t, links[i + 1..], anew, redact, w);
              (u, Onto([payload], rest))
  {
    hide Read, Onto;
    assert links[i..][1..] == links[i + 1..];
  }

  lemma WalkNone(s: Reads, members: seq<Json>, anew: bool, redact: Redactor, w: World)
    ensures Walk(s, [], anew, redact, w) == (s, Ok([])) && Onto(members, Ok([])) == Ok(members)
  {
    assert members + [] == members;
  }

  lemma OntoError(members: seq<Json>, e: Failure)
    ensures Onto(members, Err(e)) == Err(e)
  {
  }

  lemma RecordedNone(raw: map<string, Json>, w: World)
    ensures Recorded(raw, [], [], w) == raw
  {
  }

  lemma RecordedMore(raw: map<string, Json>, links: seq<string>, i: nat, members: seq<Json>, member: Json, w: World)
    requires i < |links| && |members| == i
    ensures Recorded(raw, links[..i + 1], members + [member], w)
         == Recorded(raw, links[..i], members, w)[links[i] := w.curate(member)]
  {
    assert links[..i + 1][..i] == links[..i] && (members + [member])[..i] == members;
  }

  method ReadMembers(ctx: Context, links: seq<string>, raw0: map<string, Json>, request: Request)
    returns (r: Result<seq<Json>, Failure>, raw: map<string, Json>)
    modifies ctx`cache, ctx`sent, ctx.budget
    ensures ctx.budget == old(ctx.budget)
    ensures (ctx.State(), r) == Walk(old(ctx.State()), links, request.anew, request.redact, ctx.world)
    ensures r.Ok? ==> raw == Recorded(raw0, links, r.value, ctx.world)
  {
    hide Read, Walk, Recorded, Onto;
    var members: seq<Json> := [];
    raw := raw0;
    RecordedNone(raw0, ctx.world);
    OntoNothing(Walk(ctx.State(), links, request.anew, request.redact, ctx.world).1);
    assert links[0..] == links;
    for i := 0 to |links|
      invariant ctx.budget == old(ctx.budget)
      invariant |members| == i && raw == Recorded(raw0, links[..i], members, ctx.world)
      invariant var (t, rest) := Walk(ctx.State(), links[i..], request.anew, request.redact, ctx.world);
                Walk(old(ctx.State()), links, request.anew, request.redact, ctx.world) == (t, Onto(members, rest))
    {
      WalkAt(ctx.State(), links, i, request.anew, request.redact, ctx.world);
      var member := ctx.Get(Key(links[i], false, request.anew), request.redact);
      if member.Err? {
        OntoError(members, member.error);
        return Err(member.error), raw;
      }
      OntoTwice(members, [member.value], Walk(ctx.State(), links[i + 1..], request.anew, request.redact, ctx.world).1);
      RecordedMore(raw0, links, i, members, member.value, ctx.world);
      raw := raw[links[i] := ctx.world.curate(member.value)];
      members := members + [member.value];
    }
    assert links[|links|..] == [] && links[..|links|] == links;
    WalkNone(ctx.State(), members, request.anew, request.redact, ctx.world);
    r := Ok(members);
  }

  method ListCollection(ctx: Context, request: Request) returns (r: Result<Listing, Failure>)
    modifies ctx`cache, ctx`sent, ctx.budget
    ensures ctx.budget == old(ctx.budget)
    ensures (ctx.State(), r) == ListMembers(old(ctx.State()), request, ctx.world)
  {
    hide Read, LinksOf, Expanded, ExpandAdvertised;
    var root := ctx.Get(Key(ROOT, false, false), ctx.world.scrub);
    if root.Err? {
      return Err(root.error);
    }
    var advertised := ExpandAdvertised(root.value);
    var attempt: Attempt := Untried;
    if advertised != Some(false) && request.tryExpand {
      var payload := ctx.Get(Key(request.path + EXPAND, true, request.anew), request.redact);
      if payload.Err? && !payload.error.HttpFailure? {
        return Err(payload.error);
      }
      if payload.Err? {
        attempt := Refused(HttpRefusal(payload.error.status));
      } else if payload.value == Null {
        attempt := NotFound;
      } else if !payload.value.Dict? {
        return Err(NoCollectionBody);
      } else if Expanded(Members(payload.value)) {
        return Ok(Whole(payload.value, advertised));
      } else {
        attempt := Refused(ReturnedAsLinks);
      }
    }
    var collection := ctx.Get(Key(request.path, request.ok404, request.anew), request.redact);
    if collection.Err? {
      return Err(collection.error);
    }
    var refused := if attempt.Refused? then Some(attempt.why) else None;
    if collection.value == Null {
      return Ok(Nowhere(advertised, refused));
    }
    if attempt.NotFound? {
      refused := Some(HttpRefusal(404));
    }
    var links := LinksOf(Members(collection.value), ctx.world);
    if links.Err? {
      return Err(links.error);
    }
    r := Ok(Links(collection.value, links.value, advertised, refused));
  }

  method FetchCollection(ctx: Context, request: Request) returns (r: Result<Fetched, Failure>)
    modifies ctx`cache, ctx`sent, ctx.budget
    ensures ctx.budget == old(ctx.budget)
    ensures (ctx.State(), r) == Fetch(old(ctx.State()), request, ctx.world)
  {
    hide Read, Walk, ListMembers, Recorded;
    var w := ctx.world;
    var listing := ListCollection(ctx, request);
    if listing.Err? {
      return Err(listing.error);
    }
    match listing.value
    case Whole(payload, advertised) =>
      var listed := Members(payload);
      var kept, excluded := Partition(listed, InlineId(w), request.exclude);
      r := Ok(Fetched(Some(kept), Meta(Expand, |listed|, excluded, advertised, None),
                      map[request.path + EXPAND := w.curate(payload)]));
    case Nowhere(advertised, refused) =>
      r := Ok(Fetched(None, Meta(Absent, 0, [], advertised, refused), map[]));
    case Links(collection, links, advertised, refused) =>
      var kept, excluded := Partition(links, LinkId(), request.exclude);
      if request.precheck && ctx.budget != null && |kept| > ctx.budget.maxGets - ctx.budget.used {
        return Err(BudgetTooSmall(|kept|, ctx.budget.maxGets - ctx.budget.used));
      }
      var members, raw := ReadMembers(ctx, kept, map[request.path := w.curate(collection)], request);
      if members.Err? {
        return Err(members.error);
      }
      r := Ok(Fetched(Some(members.value), Meta(Walked, |links|, excluded, advertised, refused), raw));
  }

  // ----- complete or refused ------------------------------------------------------------------

  lemma ListMembersFacts(s: Reads, request: Request, w: World)
    requires Repeatable(request.redact) && Repeatable(w.scrub)
    ensures var (t, r) := ListMembers(s, request, w);
      && Grows(s, t)
      && Accounts(s, t)
      && (r.Ok? && r.value.Whole? ==>
            Serves(t, Key(request.path + EXPAND, true, request.anew), request.redact, r.value.payload))
      && (r.Ok? && r.value.Nowhere? ==>
            Serves(t, Key(request.path, request.ok404, request.anew), request.redact, Null))
      && (r.Ok? && r.value.Links? ==>
            && Serves(t, Key(request.path, request.ok404, request.anew), request.redact, r.value.collection)
            && LinksOf(Members(r.value.collection), w) == Ok(r.value.links))
  {
    hide Read, LinksOf, Expanded, ExpandAdvertised;
    var rootKey := Key(ROOT, false, false);
    ReadFacts(s, rootKey, w.scrub, w);
    var (t, root) := Read(s, rootKey, w.scrub, w);
    if root.Ok? {
      var advertised := ExpandAdvertised(root.value);
      ReadFacts(t, Key(request.path + EXPAND, true, request.anew), request.redact, w);
      var (u, attempt) := TryExpand(t, request, advertised, w);
      ReadFacts(u, Key(request.path, request.ok404, request.anew), request.redact, w);
    }
  }

  lemma {:induction false} RecordedFacts(raw: map<string, Json>, links: seq<string>, members: seq<Json>, w: World)
    requires |links| == |members|
    requires forall i, j :: 0 <= i < |links| && 0 <= j < |links| && links[i] == links[j] ==> members[i] == members[j]
    ensures Recorded(raw, links, members, w).Keys == raw.Keys + (set link | link in links)
    ensures forall i :: 0 <= i < |links| ==> Recorded(raw, links, members, w)[links[i]] == w.curate(members[i])
  {
    if links != [] {
      var n := |links| - 1;
      RecordedFacts(raw, links[..n], members[..n], w);
      assert links == links[..n] + [links[n]];
    }
  }

  // The members of the answer: what the payload that listed them inlines.
  ghost predicate IsWhole(t: Reads, f: Fetched, request: Request, w: World) {
    exists payload ::
      && Serves(t, Key(request.path + EXPAND, true, request.anew), request.redact, payload)
      && f.members.Some? && f.meta.total == |Members(payload)|
      && SplitInOrder(Members(payload), f.members.value, f.meta.excluded, InlineId(w), request.exclude)
      && f.raw == map[request.path + EXPAND := w.curate(payload)]
  }

  // The members of the answer: what each kept link of the listing answers.
  ghost predicate IsWalked(t: Reads, f: Fetched, request: Request, w: World) {
    exists collection, links, kept :: WalkedFrom(t, f, request, w, collection, links, kept)
  }

  ghost predicate WalkedFrom(t: Reads, f: Fetched, request: Request, w: World,
                             collection: Json, links: seq<string>, kept: seq<string>)
  {
    && Serves(t, Key(request.path, request.ok404, request.anew), request.redact, collection)
    && LinksOf(Members(collection), w) == Ok(links)
    && f.members.Some? && f.meta.total == |links|
    && SplitInOrder(links, kept, f.meta.excluded, LinkId(), request.exclude)
    && |f.members.value| == |kept|
    && (forall i :: 0 <= i < |kept| ==>
          && Serves(t, Key(kept[i], false, request.anew), request.redact, f.members.value[i])
          && kept[i] in f.raw && f.raw[kept[i]] == w.curate(f.members.value[i]))
    && f.raw.Keys == {request.path} + (set link | link in kept)
  }

  // A fetch that returns has read every member: the kept ones, in the order listed, beside
  // the excluded ones, which cost no GET. Anything less is a failure, never a shorter answer.
  lemma FetchIsComplete(s: Reads, request: Request, w: World)
    requires Repeatable(request.redact) && Repeatable(w.scrub)
    requires Fetch(s, request, w).1.Ok?
    ensures var (t, f) := (Fetch(s, request, w).0, Fetch(s, request, w).1.value);
      match f.meta.strategy
      case Expand => IsWhole(t, f, request, w)
      case Walked => IsWalked(t, f, request, w)
      case Absent => f.members == None && f.meta.total == 0 && f.raw == map[]
                     && Serves(t, Key(request.path, request.ok404, request.anew), request.redact, Null)
  {
    hide Read, Walk, ListMembers, LinksOf, Recorded, Keeps, Drops, Out;
    ListMembersFacts(s, request, w);
    var (t, listed) := ListMembers(s, request, w);
    match listed.value
    case Whole(payload, _) =>
      PartitionSplits(Members(payload), InlineId(w), request.exclude);
    case Nowhere(_, _) =>
    case Links(collection, links, _, _) =>
      PartitionSplits(links, LinkId(), request.exclude);
      WalkedIsComplete(s, request, w, listed.value);
  }

  lemma WalkedIsComplete(s: Reads, request: Request, w: World, listing: Listing)
    requires Repeatable(request.redact) && Repeatable(w.scrub)
    requires Fetch(s, request, w).1.Ok?
    requires listing.Links? && ListMembers(s, request, w).1 == Ok(listing)
    ensures IsWalked(Fetch(s, request, w).0, Fetch(s, request, w).1.value, request, w)
  {
    hide Read, Walk, ListMembers, LinksOf, Recorded, Keeps, Drops, Out, SplitInOrder;
    ListMembersFacts(s, request, w);
    var t := ListMembers(s, request, w).0;
    var kept := Keeps(listing.links, LinkId(), request.exclude);
    PartitionSplits(listing.links, LinkId(), request.exclude);
    WalkFacts(t, kept, request.anew, request.redact, w);
    var (u, r) := Walk(t, kept, request.anew, request.redact, w);
    var raw := map[request.path := w.curate(listing.collection)];
    RecordedFacts(raw, kept, r.value, w);
    assert raw.Keys == {request.path};
    assert WalkedFrom(u, Fetch(s, request, w).1.value, request, w, listing.collection, listing.links, kept);
  }

  // ----- within the budget ----------------------------------------------------------------------

  // Once the member count was checked against the budget, no member read can run out of
  // it, whatever the cache holds: only listing the collection can.
  lemma MemberReadsStayInBudget(s: Reads, request: Request, w: World)
    requires Repeatable(request.redact) && Repeatable(w.scrub) && WithinBudget(s)
    requires request.precheck
    ensures Fetch(s, request, w).1 == Err(BudgetExhausted) <==> ListMembers(s, request, w).1 == Err(BudgetExhausted)
  {
    hide Read, Walk, ListMembers, Recorded, Keeps;
    ListMembersFacts(s, request, w);
    var (t, listed) := ListMembers(s, request, w);
    if listed.Ok? && listed.value.Links? {
      var kept := Keeps(listed.value.links, LinkId(), request.exclude);
      if MayWalk(t, request, |kept|) { WalkStaysInBudget(t, kept, request.anew, request.redact, w); }
    }
  }

  // A walk that is refused is refused before any member GET, and exactly when the kept
  // members outnumber the GETs left.
  lemma RefusedBeforeTheWalk(s: Reads, request: Request, w: World, listing: Listing)
    requires ListMembers(s, request, w).1 == Ok(listing) && listing.Links?
    ensures var (t, (u, r)) := (ListMembers(s, request, w).0, Fetch(s, request, w));
      var needed := |Keeps(listing.links, LinkId(), request.exclude)|;
      && (r.Err? && r.error.BudgetTooSmall? <==> request.precheck && t.budget.Some? && needed > Left(t).value)
      && (r.Err? && r.error.BudgetTooSmall? ==> u == t && r.error == BudgetTooSmall(needed, Left(t).value))
  {
    hide Read, ListMembers, Recorded, Keeps;
    var t := ListMembers(s, request, w).0;
    var kept := Keeps(listing.links, LinkId(), request.exclude);
    WalkNeverTooSmall(t, kept, request.anew, request.redact, w);
  }

  lemma {:induction false} WalkNeverTooSmall(s: Reads, links: seq<string>, anew: bool, redact: Redactor, w: World)
    ensures var r := Walk(s, links, anew, redact, w).1; r.Err? ==> !r.error.BudgetTooSmall?
    decreases links
  {
    if links != [] {
      var (t, r) := Read(s, Key(links[0], false, anew), redact, w);
      WalkNeverTooSmall(t, links[1..], anew, redact, w);
    }
  }

  // A fetch whose caller brought no budget: one that returns sent a GET for each distinct
  // member the cache lacked, and one that the budget in force stops had more of them to
  // send than GETs left.
  lemma UncheckedWalkRunsOut(s: Reads, request: Request, w: World, listing: Listing)
    requires Repeatable(request.redact) && Repeatable(w.scrub) && WithinBudget(s)
    requires ListMembers(s, request, w).1 == Ok(listing) && listing.Links? && !request.precheck
    ensures var (t, (u, r)) := (ListMembers(s, request, w).0, Fetch(s, request, w));
      var unread := |Unread(t.cache, Keeps(listing.links, LinkId(), request.exclude), request.anew)|;
      && (r == Err(BudgetExhausted) ==> t.budget.Some? && unread > Left(t).value)
      && (r.Ok? ==> u.sent == t.sent + unread && (t.budget.Some? ==> unread <= Left(t).value))
  {
    hide Read, Walk, ListMembers, Recorded, Keeps;
    ListMembersFacts(s, request, w);
    WalkCost(ListMembers(s, request, w).0, Keeps(listing.links, LinkId(), request.exclude),
             request.anew, request.redact, w);
  }

  // On a firmware that answers every member read it is stopped exactly then, and returns
  // exactly otherwise.
  lemma UncheckedWalkRunsOutExactly(s: Reads, request: Request, w: World, listing: Listing)
    requires Repeatable(request.redact) && Repeatable(w.scrub) && WithinBudget(s)
    requires ListMembers(s, request, w).1 == Ok(listing) && listing.Links? && !request.precheck
    requires Answers(w, Keeps(listing.links, LinkId(), request.exclude))
    ensures var (t, r) := (ListMembers(s, request, w).0, Fetch(s, request, w).1);
      var unread := |Unread(t.cache, Keeps(listing.links, LinkId(), request.exclude), request.anew)|;
      var short := t.budget.Some? && unread > Left(t).value;
      && (r == Err(BudgetExhausted) <==> short)
      && (r.Ok? <==> !short)
  {
    hide Read, Walk, ListMembers, Recorded, Keeps;
    ListMembersFacts(s, request, w);
    WalkRunsOutExactly(ListMembers(s, request, w).0, Keeps(listing.links, LinkId(), request.exclude),
                       request.anew, request.redact, w);
  }
}
