/** Reading a BMC through the per-run cache, under a budget of real GETs. */
module RedfishReads {
  import opened Basics
  import opened Json
  import opened Scrub

  const ROOT := "/redfish/v1/"

  // What the run cache tells reads apart by: the path and the keywords that go with it.
  datatype Key = Key(path: string, ok404: bool, anew: bool)

  datatype Reply = Body(payload: Json) | Missing | HttpError(status: nat) | Unreachable

  // Everything a read can raise, told apart as far as the collectors tell it apart.
  datatype Failure =
    | BudgetExhausted
    | Fenced
    | HttpFailure(status: nat)
    | NetworkFailure
    | LinkRefused
    | BudgetTooSmall(needed: nat, left: int)
    | NoCollectionBody
    | PageRepeated(link: string)

  // The firmware's answer to each GET sent, the path fence, Python's `str`, the redactor
  // reads pass by default, and what the raw bundle keeps of a payload.
  datatype World = World(
    server: (nat, string) -> Reply,
    fence: Json -> Option<string>,
    str: Json -> string,
    scrub: Redactor,
    curate: Json -> Json)

  datatype Budget = Budget(maxGets: nat, used: nat)

  datatype Reads = Reads(cache: map<Key, Json>, budget: Option<Budget>, sent: nat)

  type Redactor = Json -> Json

  // The null of a 404 that was allowed passes through no redactor.
  function Redacted(payload: Json, redact: Redactor): Json {
    if payload == Null then Null else redact(payload)
  }

  // `CollectorContext.get` over `RedfishClient.get`.
  function Read(s: Reads, key: Key, redact: Redactor, w: World): (Reads, Result<Json, Failure>) {
    if key in s.cache then (s, Ok(Redacted(s.cache[key], redact)))
    else
      match w.fence(Str(key.path))
      case None => (s, Err(Fenced))
      case Some(wire) =>
        if s.budget.Some? && s.budget.value.used >= s.budget.value.maxGets then (s, Err(BudgetExhausted))
        else
          var t := Charged(s);
          match w.server(s.sent, wire)
          case Body(payload) => Kept(t, key, Redacted(payload, redact))
          case Missing => if key.ok404 then Kept(t, key, Null) else (t, Err(HttpFailure(404)))
          case HttpError(status) => (t, Err(HttpFailure(status)))
          case Unreachable => (t, Err(NetworkFailure))
  }

  function Charged(s: Reads): Reads {
    s.(sent := s.sent + 1,
       budget := if s.budget.Some? then Some(s.budget.value.(used := s.budget.value.used + 1)) else None)
  }

  function Kept(s: Reads, key: Key, payload: Json): (Reads, Result<Json, Failure>) {
    (s.(cache := s.cache[key := payload]), Ok(payload))
  }

  // `_budget_left`
  function Left(s: Reads): Option<int> {
    if s.budget.Some? then Some(s.budget.value.maxGets - s.budget.value.used) else None
  }

  predicate WithinBudget(s: Reads) {
    s.budget.Some? ==> s.budget.value.used <= s.budget.value.maxGets
  }

  // One GET for each link, in order, up to the first that fails.
  function Walk(s: Reads, links: seq<string>, anew: bool, redact: Redactor, w: World)
    : (result: (Reads, Result<seq<Json>, Failure>))
    ensures result.1.Ok? ==> |result.1.value| == |links|
    decreases links
  {
    if links == [] then (s, Ok([]))
    else
      match Read(s, Key(links[0], false, anew), redact, w)
      case (t, Err(e)) => (t, Err(e))
      case (t, Ok(payload)) =>
        var (u, rest) := Walk(t, links[1..], anew, redact, w);
        (u, Onto([payload], rest))
  }

  function Onto(first: seq<Json>, rest: Result<seq<Json>, Failure>): Result<seq<Json>, Failure> {
    if rest.Ok? then Ok(first + rest.value) else rest
  }

  lemma OntoNothing(rest: Result<seq<Json>, Failure>)
    ensures Onto([], rest) == rest
  {
    if rest.Ok? { assert [] + rest.value == rest.value; }
  }

  lemma OntoTwice(first: seq<Json>, second: seq<Json>, rest: Result<seq<Json>, Failure>)
    ensures Onto(first + second, rest) == Onto(first, Onto(second, rest))
  {
    if rest.Ok? { assert (first + second) + rest.value == first + (second + rest.value); }
  }

  // ----- the context as the object it is ---------------------------------------------

  class GetBudget {
    const maxGets: nat
    var used: nat

    constructor (maxGets: nat)
      ensures this.maxGets == maxGets && used == 0
    {
      this.maxGets, this.used := maxGets, 0;
    }

    // Refuses the GET that would exceed the cap, before it is sent.
    method Charge() returns (ok: bool)
      modifies this
      ensures ok == (old(used) < maxGets)
      ensures used == old(used) + if ok then 1 else 0
    {
      ok := used < maxGets;
      if ok { used := used + 1; }
    }
  }

  class Context {
    const world: World
    var cache: map<Key, Json>
    var budget: GetBudget?
    var sent: nat

    constructor (world: World)
      ensures this.world == world && State() == Reads(map[], None, 0)
    {
      this.world := world;
      cache, budget, sent := map[], null, 0;
    }

    ghost function State(): Reads
      reads this, budget
    {
      Reads(cache, if budget == null then None else Some(Budget(budget.maxGets, budget.used)), sent)
    }

    method Get(key: Key, redact: Redactor) returns (r: Result<Json, Failure>)
      modifies this`cache, this`sent, budget
      ensures budget == old(budget)
      ensures (State(), r) == Read(old(State()), key, redact, world)
    {
      if key in cache {
        return Ok(Redacted(cache[key], redact));
      }
      var fenced := world.fence(Str(key.path));
      if fenced.None? {
        return Err(Fenced);
      }
      if budget != null {
        var ok := budget.Charge();
        if !ok { return Err(BudgetExhausted); }
      }
      var reply := world.server(sent, fenced.value);
      sent := sent + 1;
      match reply
      case Body(payload) =>
        cache := cache[key := Redacted(payload, redact)];
        r := Ok(cache[key]);
      case Missing =>
        if key.ok404 {
          cache := cache[key := Null];
          r := Ok(Null);
        } else {
          r := Err(HttpFailure(404));
        }
      case HttpError(status) => r := Err(HttpFailure(status));
      case Unreachable => r := Err(NetworkFailure);
    }
  }

  // ----- what a read does -----------------------------------------------------------------

  // A redactor may meet its own output again on a cache hit, so it must be idempotent.
  ghost predicate Repeatable(redact: Redactor) {
    forall payload :: redact(redact(payload)) == redact(payload)
  }

  lemma ScrubbingIsIdempotent(keepUserNames: bool, rules: Rules)
    requires Scrub.Idempotent(rules.rewriteUrls)
    ensures Repeatable(payload => ScrubPayload(payload, keepUserNames, rules))
  {
    forall payload
      ensures ScrubPayload(ScrubPayload(payload, keepUserNames, rules), keepUserNames, rules)
           == ScrubPayload(payload, keepUserNames, rules)
    {
      ScrubIsIdempotent(payload, keepUserNames, rules);
    }
  }

  // The cache only grows, and what is in it stays.
  ghost predicate Grows(s: Reads, t: Reads) {
    forall key :: key in s.cache ==> key in t.cache && t.cache[key] == s.cache[key]
  }

  // What a later read of the key answers.
  predicate Serves(s: Reads, key: Key, redact: Redactor, payload: Json) {
    key in s.cache && payload == Redacted(s.cache[key], redact)
  }

  // The GETs sent by a stretch of reads are the ones charged for.
  ghost predicate Accounts(s: Reads, t: Reads) {
    && t.sent >= s.sent
    && t.budget.Some? == s.budget.Some?
    && (s.budget.Some? ==>
          && t.budget.value.maxGets == s.budget.value.maxGets
          && t.budget.value.used == s.budget.value.used + (t.sent - s.sent))
    && (WithinBudget(s) ==> WithinBudget(t))
  }

  lemma ReadFacts(s: Reads, key: Key, redact: Redactor, w: World)
    requires Repeatable(redact)
    ensures var (t, r) := Read(s, key, redact, w);
      && Grows(s, t)
      && Accounts(s, t)
      && (r.Ok? ==> Serves(t, key, redact, r.value))
      && (key in s.cache ==> r.Ok? && t == s)
      && t.sent <= s.sent + 1
  {
  }

  lemma {:induction false} WalkFacts(s: Reads, links: seq<string>, anew: bool, redact: Redactor, w: World)
    requires Repeatable(redact)
    ensures var (t, r) := Walk(s, links, anew, redact, w);
      && Grows(s, t)
      && Accounts(s, t)
      && (r.Ok? ==> |r.value| == |links|
                    && forall i :: 0 <= i < |links| ==> Serves(t, Key(links[i], false, anew), redact, r.value[i]))
    decreases links
  {
    if links != [] {
      ReadFacts(s, Key(links[0], false, anew), redact, w);
      var (t, r) := Read(s, Key(links[0], false, anew), redact, w);
      if r.Ok? {
        WalkFacts(t, links[1..], anew, redact, w);
      }
    }
  }

  // ----- what a walk costs ----------------------------------------------------------------

  // The distinct links the cache does not hold yet.
  ghost function Unread(cache: map<Key, Json>, links: seq<string>, anew: bool): set<string> {
    set link | link in links && Key(link, false, anew) !in cache
  }

  lemma {:induction false} UnreadAtMost(cache: map<Key, Json>, links: seq<string>, anew: bool)
    ensures |Unread(cache, links, anew)| <= |links|
  {
    if links != [] {
      var rest := links[1..];
      UnreadAtMost(cache, rest, anew);
      assert links == [links[0]] + rest;
      if Key(links[0], false, anew) in cache {
        assert Unread(cache, links, anew) == Unread(cache, rest, anew);
      } else {
        assert Unread(cache, links, anew) == Unread(cache, rest, anew) + {links[0]};
      }
    }
  }

  lemma UnreadAfter(cache: map<Key, Json>, links: seq<string>, anew: bool, payload: Json)
    requires links != []
    ensures var key := Key(links[0], false, anew);
      && (key in cache ==> Unread(cache, links, anew) == Unread(cache, links[1..], anew))
      && (key !in cache ==> |Unread(cache[key := payload], links[1..], anew)| == |Unread(cache, links, anew)| - 1)
  {
    var key := Key(links[0], false, anew);
    assert links == [links[0]] + links[1..];
    if key !in cache {
      assert Unread(cache[key := payload], links[1..], anew) == Unread(cache, links, anew) - {links[0]};
    }
  }

  // A walk that succeeds sent one GET for each distinct link the cache lacked; one that
  // ran into the budget had more of them to send than GETs left.
  lemma {:induction false} WalkCost(s: Reads, links: seq<string>, anew: bool, redact: Redactor, w: World)
    requires WithinBudget(s)
    ensures var (t, r) := Walk(s, links, anew, redact, w);
      && (r.Ok? ==> t.sent == s.sent + |Unread(s.cache, links, anew)|)
      && (r == Err(BudgetExhausted) ==> s.budget.Some? && |Unread(s.cache, links, anew)| > Left(s).value)
      && (r.Ok? && s.budget.Some? ==> |Unread(s.cache, links, anew)| <= Left(s).value)
    decreases links
  {
    if links != [] {
      var key := Key(links[0], false, anew);
      var (t, r) := Read(s, key, redact, w);
      assert links[0] in links;
      if key !in s.cache { assert links[0] in Unread(s.cache, links, anew); }
      if r.Ok? {
        UnreadAfter(s.cache, links, anew, r.value);
        WalkCost(t, links[1..], anew, redact, w);
      }
    }
  }

  // Whatever the cache holds, a budget with a GET for each link is never what stops a walk.
  lemma WalkStaysInBudget(s: Reads, links: seq<string>, anew: bool, redact: Redactor, w: World)
    requires WithinBudget(s)
    requires s.budget.Some? ==> |links| <= Left(s).value
    ensures Walk(s, links, anew, redact, w).1 != Err(BudgetExhausted)
  {
    WalkCost(s, links, anew, redact, w);
    UnreadAtMost(s.cache, links, anew);
  }

  // A firmware that answers every read of these links, all of them inside the fence.
  ghost predicate Answers(w: World, links: seq<string>) {
    forall link :: link in links ==> AnswersLink(w, link)
  }

  ghost predicate AnswersLink(w: World, link: string) {
    w.fence(Str(link)).Some? && forall n: nat :: w.server(n, w.fence(Str(link)).value).Body?
  }

  // Then a walk runs out exactly when the distinct links the cache lacks outnumber the
  // GETs left, and succeeds exactly when they do not.
  lemma {:induction false} WalkRunsOutExactly(s: Reads, links: seq<string>, anew: bool, redact: Redactor, w: World)
    requires WithinBudget(s) && Answers(w, links)
    ensures var r := Walk(s, links, anew, redact, w).1;
      var short := s.budget.Some? && |Unread(s.cache, links, anew)| > Left(s).value;
      && (r == Err(BudgetExhausted) <==> short)
      && (r.Ok? <==> !short)
    decreases links
  {
    WalkCost(s, links, anew, redact, w);
    if links != [] {
      var key := Key(links[0], false, anew);
      var (t, r) := Read(s, key, redact, w);
      assert AnswersLink(w, links[0]);
      if r.Ok? {
        UnreadAfter(s.cache, links, anew, r.value);
        assert forall link :: link in links[1..] ==> link in links;
        WalkRunsOutExactly(t, links[1..], anew, redact, w);
      }
    }
  }
}
