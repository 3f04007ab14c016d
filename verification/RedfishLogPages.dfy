/** Reading a whole log that the firmware may serve page by page. */
module RedfishLogPages {
  import opened Basics
  import opened Json
  import opened Payload
  import opened RedfishReads
  import opened RedfishCollections

  datatype LogRead = LogRead(entries: seq<Json>, pages: seq<string>, served: int)

  function PageKey(link: string): Key { Key(link, false, false) }

  function NextLink(page: Json): Json { At(page, "Members@odata.nextLink") }

  predicate Continues(page: Json, w: World) { TextOf(NextLink(page), w).Some? }

  // Python's int, told from a float by its text.
  predicate IsInteger(v: Json) {
    v.Num? && forall c :: c in v.text ==> c !in ".eE"
  }

  function AllMembers(bodies: seq<Json>): seq<Json> {
    if bodies == [] then [] else AllMembers(bodies[..|bodies| - 1]) + Members(bodies[|bodies| - 1])
  }

  // How many entries the first page claims, or how many were read.
  function Served(first: Json, entries: seq<Json>): int {
    var count := At(first, "Members@odata.count");
    if IsInteger(count) then count.value.Floor else |entries|
  }

  ghost predicate Distinct<T(!new)>(xs: seq<T>) {
    forall i, j :: 0 <= i < j < |xs| ==> xs[i] != xs[j]
  }

  ghost predicate HeldAt(t: Reads, pages: seq<string>, bodies: seq<Json>, i: nat, redact: Redactor)
    requires i < |pages| && i < |bodies|
  {
    bodies[i].Dict? && Serves(t, PageKey(pages[i]), redact, bodies[i])
  }

  ghost predicate Follows(pages: seq<string>, bodies: seq<Json>, i: nat, w: World)
    requires 0 < i < |pages| && i < |bodies|
  {
    Continues(bodies[i - 1], w) && w.fence(NextLink(bodies[i - 1])) == Some(pages[i])
  }

  // The pages reached from the first by following continuations, none twice, with what
  // the cache holds for each of them.
  ghost predicate Chain(t: Reads, first: string, pages: seq<string>, bodies: seq<Json>, redact: Redactor, w: World) {
    && |pages| == |bodies| && 0 < |pages| && pages[0] == first
    && Distinct(pages)
    && (forall i: nat :: i < |pages| ==> HeldAt(t, pages, bodies, i, redact))
    && (forall i: nat :: 0 < i < |pages| ==> Follows(pages, bodies, i, w))
  }

  ghost predicate WholeChain(t: Reads, first: string, pages: seq<string>, bodies: seq<Json>, redact: Redactor,
                             w: World)
  {
    Chain(t, first, pages, bodies, redact, w) && !Continues(bodies[|bodies| - 1], w)
  }

  // The chain comes to a continuation the fence refuses.
  ghost predicate BreaksAt(t: Reads, first: string, pages: seq<string>, bodies: seq<Json>, redact: Redactor, w: World) {
    && Chain(t, first, pages, bodies, redact, w)
    && Continues(bodies[|bodies| - 1], w) && w.fence(NextLink(bodies[|bodies| - 1])) == None
  }

  // The chain comes back to a page already read.
  ghost predicate LoopsAt(t: Reads, first: string, pages: seq<string>, bodies: seq<Json>, link: string,
                          redact: Redactor, w: World)
  {
    && Chain(t, first, pages, bodies, redact, w)
    && Continues(bodies[|bodies| - 1], w) && w.fence(NextLink(bodies[|bodies| - 1])) == Some(link) && link in pages
  }

  // The page next in the chain could not be read, or answered without a collection body.
  ghost predicate GivesUpAt(s: Reads, t: Reads, first: string, mid: Reads, pages: seq<string>, bodies: seq<Json>,
                            next: string, e: Failure, redact: Redactor, w: World)
  {
    && (if pages == [] then mid == s && next == first
        else
          && Chain(mid, first, pages, bodies, redact, w)
          && Continues(bodies[|bodies| - 1], w) && w.fence(NextLink(bodies[|bodies| - 1])) == Some(next)
          && next !in pages)
    && Read(mid, PageKey(next), redact, w).0 == t
    && match Read(mid, PageKey(next), redact, w).1
       case Err(f) => e == f
       case Ok(body) => !body.Dict? && e == NoCollectionBody
  }

  // What a read that starts in `s` and leaves `t` may return or refuse with.
  ghost predicate Explains(s: Reads, t: Reads, first: string, r: Result<LogRead, Failure>, redact: Redactor, w: World) {
    match r
    case Ok(log) =>
      exists bodies ::
        && WholeChain(t, first, log.pages, bodies, redact, w)
        && log.entries == AllMembers(bodies) && log.served == Served(bodies[0], log.entries)
    case Err(PageRepeated(link)) => exists pages, bodies :: LoopsAt(t, first, pages, bodies, link, redact, w)
    case Err(LinkRefused) => exists pages, bodies :: BreaksAt(t, first, pages, bodies, redact, w)
    case Err(e) => exists mid, pages, bodies, next :: GivesUpAt(s, t, first, mid, pages, bodies, next, e, redact, w)
  }

  // What the loop uses up: the GETs left, and the cached paths it has not been to.
  ghost function Measure(s: Reads, pages: seq<string>): int {
    (if s.budget.Some? then s.budget.value.maxGets - s.budget.value.used else 0)
    + |set key | key in s.cache && key.path !in pages|
  }

  lemma MeasureDrops(s: Reads, t: Reads, pages: seq<string>, link: string, redact: Redactor, w: World)
    requires s.budget.Some? && WithinBudget(s) && link !in pages
    requires Read(s, PageKey(link), redact, w).0 == t && Read(s, PageKey(link), redact, w).1.Ok?
    ensures 0 <= Measure(t, pages + [link]) < Measure(s, pages)
  {
    var before := set key | key in s.cache && key.path !in pages;
    var after := set key | key in t.cache && key.path !in pages + [link];
    assert after <= before;
    if PageKey(link) in s.cache {
      assert PageKey(link) in before && PageKey(link) !in after;
      Smaller(after, before, PageKey(link));
    } else {
      Smaller(after, before + {PageKey(link)}, PageKey(link));
    }
  }

  lemma Smaller<T>(a: set<T>, b: set<T>, x: T)
    requires a <= b && x in b && x !in a
    ensures |a| < |b|
  {
    var rest := b - {x};
    assert a <= rest;
    SubsetSize(a, rest);
  }

  lemma SubsetSize<T>(a: set<T>, b: set<T>)
    requires a <= b
    ensures |a| <= |b|
  {
    assert b == a + (b - a);
  }

  lemma ChainStarts(t: Reads, first: string, body: Json, redact: Redactor, w: World)
    requires body.Dict? && Serves(t, PageKey(first), redact, body)
    ensures Chain(t, first, [first], [body], redact, w)
    ensures AllMembers([body]) == Members(body)
  {
    assert [body][..0] == [] && AllMembers([]) + Members(body) == Members(body);
    assert HeldAt(t, [first], [body], 0, redact);
  }

  lemma ChainGrows(s: Reads, t: Reads, first: string, pages: seq<string>, bodies: seq<Json>, link: string, body: Json,
                   redact: Redactor, w: World)
    requires Chain(s, first, pages, bodies, redact, w) && Grows(s, t)
    requires Continues(bodies[|bodies| - 1], w) && w.fence(NextLink(bodies[|bodies| - 1])) == Some(link)
    requires link !in pages && body.Dict? && Serves(t, PageKey(link), redact, body)
    ensures Chain(t, first, pages + [link], bodies + [body], redact, w)
    ensures AllMembers(bodies + [body]) == AllMembers(bodies) + Members(body)
  {
    hide Continues, NextLink, Members;
    var pages', bodies' := pages + [link], bodies + [body];
    assert bodies'[..|bodies|] == bodies;
    forall i: nat | i < |pages'| ensures HeldAt(t, pages', bodies', i, redact) {
      if i < |pages| { assert HeldAt(s, pages, bodies, i, redact); }
    }
    forall i: nat | 0 < i < |pages'| ensures Follows(pages', bodies', i, w) {
      if i < |pages| { assert Follows(pages, bodies, i, w); }
    }
  }

  // `_event_log_read_entries`, under the budget every log check runs in. It ends on every
  // firmware, and returns the whole log or says why there is none.
  method ReadEntries(ctx: Context, link: string, redact: Redactor) returns (r: Result<LogRead, Failure>)
    requires ctx.budget != null && WithinBudget(ctx.State())
    requires Repeatable(redact)
    modifies ctx`cache, ctx`sent, ctx.budget
    ensures ctx.budget == old(ctx.budget)
    ensures Grows(old(ctx.State()), ctx.State()) && Accounts(old(ctx.State()), ctx.State())
    ensures Explains(old(ctx.State()), ctx.State(), link, r, redact, ctx.world)
  {
    hide Read, Members, Served, Continues, NextLink, Chain;
    var w := ctx.world;
    ReadFacts(ctx.State(), PageKey(link), redact, w);
    var page := ctx.Get(PageKey(link), redact);
    if page.Err? {
      FailuresOfReads(old(ctx.State()), PageKey(link), redact, w);
      assert GivesUpAt(old(ctx.State()), ctx.State(), link, old(ctx.State()), [], [], link, page.error, redact, w);
      return Err(page.error);
    }
    if !page.value.Dict? {
      assert GivesUpAt(old(ctx.State()), ctx.State(), link, old(ctx.State()), [], [], link, NoCollectionBody, redact,
                       w);
      return Err(NoCollectionBody);
    }
    var entries := Members(page.value);
    var pages := [link];
    var count := At(page.value, "Members@odata.count");
    ghost var bodies := [page.value];
    ChainStarts(ctx.State(), link, page.value, redact, w);
    while Continues(page.value, w)
      invariant ctx.budget == old(ctx.budget) && WithinBudget(ctx.State())
      invariant Grows(old(ctx.State()), ctx.State()) && Accounts(old(ctx.State()), ctx.State())
      invariant page.Ok? && |pages| == |bodies| && 0 < |bodies|
      invariant Chain(ctx.State(), link, pages, bodies, redact, w)
      invariant page.value == bodies[|bodies| - 1] && entries == AllMembers(bodies)
      invariant count == At(bodies[0], "Members@odata.count")
      decreases Measure(ctx.State(), pages)
    {
      var next := w.fence(NextLink(page.value));
      if next.None? {
        assert BreaksAt(ctx.State(), link, pages, bodies, redact, w);
        return Err(LinkRefused);
      }
      if next.value in pages {
        assert LoopsAt(ctx.State(), link, pages, bodies, next.value, redact, w);
        return Err(PageRepeated(next.value));
      }
      ghost var s := ctx.State();
      ReadFacts(s, PageKey(next.value), redact, w);
      page := ctx.Get(PageKey(next.value), redact);
      if page.Err? {
        FailuresOfReads(s, PageKey(next.value), redact, w);
        assert GivesUpAt(old(ctx.State()), ctx.State(), link, s, pages, bodies, next.value, page.error, redact, w);
        return Err(page.error);
      }
      if !page.value.Dict? {
        assert GivesUpAt(old(ctx.State()), ctx.State(), link, s, pages, bodies, next.value, NoCollectionBody, redact,
                         w);
        return Err(NoCollectionBody);
      }
      MeasureDrops(s, ctx.State(), pages, next.value, redact, w);
      ChainGrows(s, ctx.State(), link, pages, bodies, next.value, page.value, redact, w);
      entries := entries + Members(page.value);
      pages := pages + [next.value];
      bodies := bodies + [page.value];
    }
    assert WholeChain(ctx.State(), link, pages, bodies, redact, w);
    if IsInteger(count) {
      r := Ok(LogRead(entries, pages, count.value.Floor));
    } else {
      r := Ok(LogRead(entries, pages, |entries|));
    }
    AnswerIsServed(bodies[0], entries, count);
  }

  lemma AnswerIsServed(first: Json, entries: seq<Json>, count: Json)
    requires count == At(first, "Members@odata.count")
    ensures Served(first, entries) == if IsInteger(count) then count.value.Floor else |entries|
  {
  }

  lemma FailuresOfReads(s: Reads, key: Key, redact: Redactor, w: World)
    ensures var r := Read(s, key, redact, w).1; r.Err? ==> !r.error.PageRepeated? && !r.error.LinkRefused?
  {
  }

  // ----- one log, one answer ---------------------------------------------------------------

  lemma {:induction false} ChainsAgree(t: Reads, first: string, redact: Redactor, w: World,
                                       pages: seq<string>, bodies: seq<Json>, pages': seq<string>,
                                       bodies': seq<Json>, i: nat)
    requires Chain(t, first, pages, bodies, redact, w) && Chain(t, first, pages', bodies', redact, w)
    requires i < |pages| && i < |pages'|
    ensures pages[i] == pages'[i] && bodies[i] == bodies'[i]
  {
    hide Continues, NextLink;
    if i > 0 {
      ChainsAgree(t, first, redact, w, pages, bodies, pages', bodies', i - 1);
      assert Follows(pages, bodies, i, w) && Follows(pages', bodies', i, w);
    }
    assert HeldAt(t, pages, bodies, i, redact) && HeldAt(t, pages', bodies', i, redact);
  }

  // No chain goes on where a whole one ends.
  lemma NoLongerChain(t: Reads, first: string, redact: Redactor, w: World,
                      pages: seq<string>, bodies: seq<Json>, pages': seq<string>, bodies': seq<Json>)
    requires WholeChain(t, first, pages, bodies, redact, w) && Chain(t, first, pages', bodies', redact, w)
    ensures |pages'| <= |pages|
  {
    hide Continues, NextLink;
    if |pages| < |pages'| {
      assert Follows(pages', bodies', |pages|, w);
      ChainsAgree(t, first, redact, w, pages, bodies, pages', bodies', |pages| - 1);
      assert false;
    }
  }

  // The pages and their bodies are fixed by the first link and what the firmware answered.
  lemma WholeChainIsUnique(t: Reads, first: string, redact: Redactor, w: World,
                           pages: seq<string>, bodies: seq<Json>, pages': seq<string>, bodies': seq<Json>)
    requires WholeChain(t, first, pages, bodies, redact, w) && WholeChain(t, first, pages', bodies', redact, w)
    ensures pages == pages' && bodies == bodies'
  {
    hide Continues, NextLink, Chain;
    assert Chain(t, first, pages, bodies, redact, w) && Chain(t, first, pages', bodies', redact, w);
    NoLongerChain(t, first, redact, w, pages, bodies, pages', bodies');
    NoLongerChain(t, first, redact, w, pages', bodies', pages, bodies);
    ChainLengths(t, first, pages, bodies, redact, w);
    ChainLengths(t, first, pages', bodies', redact, w);
    forall i | 0 <= i < |pages|
      ensures pages[i] == pages'[i] && bodies[i] == bodies'[i]
    {
      ChainsAgree(t, first, redact, w, pages, bodies, pages', bodies', i);
    }
  }

  lemma ChainLengths(t: Reads, first: string, pages: seq<string>, bodies: seq<Json>, redact: Redactor, w: World)
    requires Chain(t, first, pages, bodies, redact, w)
    ensures |pages| == |bodies| && 0 < |pages| && Distinct(pages)
  {
  }

  // A chain that comes back to one of its pages is no log: no whole chain starts where it
  // starts, so it is never answered, not even in part.
  lemma LoopIsNoLog(t: Reads, first: string, redact: Redactor, w: World, link: string,
                    pages: seq<string>, bodies: seq<Json>, pages': seq<string>, bodies': seq<Json>)
    requires LoopsAt(t, first, pages, bodies, link, redact, w)
    ensures !WholeChain(t, first, pages', bodies', redact, w)
  {
    hide Continues, NextLink, Chain;
    if WholeChain(t, first, pages', bodies', redact, w) {
      var n := |pages|;
      ChainLengths(t, first, pages, bodies, redact, w);
      ChainLengths(t, first, pages', bodies', redact, w);
      NoLongerChain(t, first, redact, w, pages', bodies', pages, bodies);
      ChainsAgree(t, first, redact, w, pages, bodies, pages', bodies', n - 1);
      if n < |pages'| {
        var j :| 0 <= j < n && pages[j] == link;
        ChainsAgree(t, first, redact, w, pages, bodies, pages', bodies', j);
        NextOf(t, first, pages', bodies', redact, w, n);
      }
      assert false;
    }
  }

  lemma NextOf(t: Reads, first: string, pages: seq<string>, bodies: seq<Json>, redact: Redactor, w: World, i: nat)
    requires Chain(t, first, pages, bodies, redact, w) && 0 < i < |pages|
    ensures i <= |bodies| && w.fence(NextLink(bodies[i - 1])) == Some(pages[i])
  {
    assert Follows(pages, bodies, i, w);
  }
}
