/**
 The cache of accessible spaces: one shared fetch, a time to live, and a generation that an
 invalidation moves on.
 */
module SpaceCache {
  import opened Wrappers

  datatype Space = Space(id: string, name: string)

  const TTL: nat := 45_000

  // ---- merging the pages ----

  /** The first item with its id. */
  predicate IsFirst(items: seq<Space>, i: nat)
    requires i < |items|
  {
    forall j | 0 <= j < i :: items[j].id != items[i].id
  }

  /** The positions of those items, in order. */
  function Firsts(items: seq<Space>): (ps: seq<nat>)
    ensures forall k | 0 <= k < |ps| :: ps[k] < |items|
  {
    if items == [] then []
    else
      var n := |items| - 1;
      Firsts(items[..n]) + if IsFirst(items, n) then [n] else []
  }

  function At(items: seq<Space>, ps: seq<nat>): (r: seq<Space>)
    requires forall k | 0 <= k < |ps| :: ps[k] < |items|
    ensures |r| == |ps| && forall k | 0 <= k < |ps| :: r[k] == items[ps[k]]
  {
    seq(|ps|, k requires 0 <= k < |ps| => items[ps[k]])
  }

  /** Exactly the first occurrences, each once and in the order of the items. */
  lemma {:induction false} FirstsAreFirst(items: seq<Space>)
    ensures forall i, j | 0 <= i < j < |Firsts(items)| :: Firsts(items)[i] < Firsts(items)[j]
    ensures forall p | 0 <= p < |items| :: p in Firsts(items) <==> IsFirst(items, p)
  {
    if items != [] {
      var n := |items| - 1;
      var before := items[..n];
      FirstsAreFirst(before);
      assert forall k | 0 <= k < |Firsts(before)| :: Firsts(before)[k] < n;
      forall p | 0 <= p < |items| ensures p in Firsts(items) <==> IsFirst(items, p) {
        if p < n {
          assert IsFirst(before, p) <==> IsFirst(items, p) by {
            assert forall j | 0 <= j <= p :: before[j] == items[j];
          }
        }
      }
    }
  }

  ghost predicate HasId(items: seq<Space>, id: string) {
    exists i :: 0 <= i < |items| && items[i].id == id
  }

  lemma {:induction false} SomeFirst(items: seq<Space>, i: nat) returns (p: nat)
    requires i < |items|
    ensures p <= i && items[p].id == items[i].id && IsFirst(items, p)
  {
    if IsFirst(items, i) {
      p := i;
    } else {
      var j: nat :| j < i && items[j].id == items[i].id;
      p := SomeFirst(items, j);
    }
  }

  /** The merged list has every id of the items, and each once. */
  lemma MergedIdsOnce(items: seq<Space>)
    ensures var r := At(items, Firsts(items));
            && (forall i, j | 0 <= i < j < |r| :: r[i].id != r[j].id)
            && (forall id :: HasId(r, id) <==> HasId(items, id))
  {
    FirstsAreFirst(items);
    var ps, r := Firsts(items), At(items, Firsts(items));
    forall i, j | 0 <= i < j < |r| ensures r[i].id != r[j].id {
      assert ps[j] in ps && IsFirst(items, ps[j]);
    }
    forall id | HasId(items, id) ensures HasId(r, id) {
      var i: nat :| i < |items| && items[i].id == id;
      var p := SomeFirst(items, i);
      assert p in ps;
      var k :| 0 <= k < |ps| && ps[k] == p;
      assert r[k].id == id;
    }
    forall id | HasId(r, id) ensures HasId(items, id) {
      var k :| 0 <= k < |r| && r[k].id == id;
      assert items[ps[k]].id == id;
    }
  }

  function Flatten(pages: seq<seq<Space>>): seq<Space> {
    if pages == [] then [] else pages[0] + Flatten(pages[1..])
  }

  /** The items of the pages, page after page. */
  lemma {:induction false} PagesInOrder(before: seq<seq<Space>>, page: seq<Space>)
    ensures Flatten(before + [page]) == Flatten(before) + page
    decreases |before|
  {
    if before == [] {
      assert Flatten([page]) == page + Flatten([page][1..]);
      assert [] + [page] == [page];
    } else {
      assert (before + [page])[1..] == before[1..] + [page];
      PagesInOrder(before[1..], page);
    }
  }

  lemma FirstsOfOneMore(items: seq<Space>, n: nat)
    requires n < |items|
    ensures Firsts(items[..n + 1]) == Firsts(items[..n]) + if IsFirst(items, n) then [n] else []
    ensures At(items[..n + 1], Firsts(items[..n + 1])) ==
            At(items[..n], Firsts(items[..n])) + if IsFirst(items, n) then [items[n]] else []
  {
    var more := items[..n + 1];
    assert more[..n] == items[..n];
    assert IsFirst(more, n) <==> IsFirst(items, n) by {
      assert forall j | 0 <= j <= n :: more[j] == items[j];
    }
    var ps := Firsts(items[..n]);
    assert forall k | 0 <= k < |ps| :: more[ps[k]] == items[..n][ps[k]];
  }

  /** The end of fetchAccessibleSpaces: flatten the pages and filter by the ids seen so far. */
  method MergePages(pages: seq<seq<Space>>) returns (spaces: seq<Space>)
    ensures spaces == At(Flatten(pages), Firsts(Flatten(pages)))
  {
    var items := Flatten(pages);
    var seen: set<string> := {};
    spaces := [];
    for n := 0 to |items|
      invariant seen == set j | 0 <= j < n :: items[j].id
      invariant spaces == At(items[..n], Firsts(items[..n]))
    {
      FirstsOfOneMore(items, n);
      if items[n].id !in seen {
        seen := seen + {items[n].id};
        spaces := spaces + [items[n]];
      }
    }
    assert items[..|items|] == items;
  }

  // ---- the cache ----

  /** A fetch that has not run its `finally` yet; `outcome` is None while it waits for the server. */
  datatype Fetch = Fetch(generation: nat, outcome: Option<Outcome>)
  datatype Outcome = Resolved(spaces: seq<Space>) | Rejected

  /** What a fetch delivered, and when. */
  datatype Delivery = Delivery(spaces: seq<Space>, at: nat)

  /**
   `cachedFrom`, `nextId` and `results` are history: the fetch the cached list came from, how many were
   begun, and what they delivered.
   */
  datatype Cache = Cache(
    now: nat, cachedSpaces: Option<seq<Space>>, cachedAt: nat, inFlight: Option<nat>, generation: nat,
    fetches: map<nat, Fetch>, nextId: nat, cachedFrom: nat, results: map<nat, Delivery>)

  /** What a load returns: a cached list, or the promise of a fetch. */
  datatype Reply = Cached(spaces: seq<Space>) | Promised(id: nat)

  datatype Event =
    | Load
    | Invalidate
    | Resolve(id: nat, spaces: seq<Space>)
    | Reject(id: nat)
    | Finally(id: nat)
    | Tick(elapsed: nat)

  function Loaded(c: Cache): (Cache, Reply) {
    if c.cachedSpaces.Some? && c.now - c.cachedAt < TTL then (c, Cached(c.cachedSpaces.value))
    else if c.inFlight.Some? then (c, Promised(c.inFlight.value))
    else
      (c.(inFlight := Some(c.nextId), fetches := c.fetches[c.nextId := Fetch(c.generation, None)],
          nextId := c.nextId + 1),
       Promised(c.nextId))
  }

  /** The fetch a load's data comes from. */
  function Source(c: Cache): nat {
    match Loaded(c).1
    case Cached(_) => c.cachedFrom
    case Promised(id) => id
  }

  function Invalidated(c: Cache): Cache {
    c.(generation := c.generation + 1, inFlight := None, cachedSpaces := None, cachedAt := 0)
  }

  predicate Waiting(c: Cache, id: nat) { id in c.fetches && c.fetches[id].outcome.None? }

  function ResolvedFetch(c: Cache, id: nat, spaces: seq<Space>): Cache
    requires Waiting(c, id)
  {
    var done := c.(fetches := c.fetches[id := c.fetches[id].(outcome := Some(Resolved(spaces)))],
      results := c.results[id := Delivery(spaces, c.now)]);
    if c.fetches[id].generation == c.generation
    then done.(cachedSpaces := Some(spaces), cachedAt := c.now, cachedFrom := id)
    else done
  }

  function FinallyRun(c: Cache, id: nat): Cache
    requires id in c.fetches
  {
    c.(fetches := c.fetches - {id}, inFlight := if c.fetches[id].generation == c.generation then None else c.inFlight)
  }

  function Apply(c: Cache, e: Event): Cache {
    match e
    case Load => Loaded(c).0
    case Invalidate => Invalidated(c)
    case Resolve(id, spaces) => if Waiting(c, id) then ResolvedFetch(c, id, spaces) else c
    case Reject(id) =>
      if Waiting(c, id) then c.(fetches := c.fetches[id := c.fetches[id].(outcome := Some(Rejected))]) else c
    case Finally(id) => if id in c.fetches && c.fetches[id].outcome.Some? then FinallyRun(c, id) else c
    case Tick(elapsed) => c.(now := c.now + elapsed)
  }

  function Start(now: nat): Cache { Cache(now, None, 0, None, 0, map[], 0, 0, map[]) }

  function After(c: Cache, run: seq<Event>): Cache
    decreases |run|
  {
    if run == [] then c else After(Apply(c, run[0]), run[1..])
  }

  // ---- what every run keeps ----

  /** Unfinished fetches are of different generations, and the current generation's is the one in flight. */
  ghost predicate FetchesInv(c: Cache) {
    && (forall id | id in c.fetches :: id < c.nextId && c.fetches[id].generation <= c.generation)
    && (forall id, other | id in c.fetches && other in c.fetches && id != other ::
          c.fetches[id].generation != c.fetches[other].generation)
    && (forall id | id in c.fetches :: c.fetches[id].generation == c.generation <==> c.inFlight == Some(id))
    && (c.inFlight.Some? ==> c.inFlight.value in c.fetches)
  }

  /** The cached list is what its fetch delivered, then. */
  ghost predicate CachedInv(c: Cache) {
    && (c.cachedSpaces.Some? ==>
          && c.cachedFrom < c.nextId && c.cachedFrom in c.results
          && c.results[c.cachedFrom] == Delivery(c.cachedSpaces.value, c.cachedAt))
    && (forall id | id in c.results :: id < c.nextId && !Waiting(c, id))
    && c.cachedAt <= c.now
  }

  ghost predicate Inv(c: Cache) { FetchesInv(c) && CachedInv(c) }

  /** Whatever can still reach a caller was begun as fetch number `floor` or later. */
  ghost predicate FreshSince(c: Cache, floor: nat) {
    && (c.cachedSpaces.Some? ==> c.cachedFrom >= floor)
    && (c.inFlight.Some? ==> c.inFlight.value >= floor)
    && floor <= c.nextId
  }

  lemma LoadKeeps(c: Cache, floor: nat)
    requires Inv(c) && FreshSince(c, floor)
    ensures Inv(Loaded(c).0) && FreshSince(Loaded(c).0, floor)
  {
    var r := Loaded(c).0;
    if r != c { assert r.fetches.Keys == c.fetches.Keys + {c.nextId}; }
  }

  lemma InvalidateKeeps(c: Cache)
    requires Inv(c)
    ensures Inv(Invalidated(c)) && FreshSince(Invalidated(c), c.nextId)
  {
  }

  /** Noting an outcome moves no fetch to another generation. */
  lemma OutcomeKeepsFetches(c: Cache, r: Cache, id: nat, outcome: Outcome)
    requires FetchesInv(c) && Waiting(c, id)
    requires r.fetches == c.fetches[id := c.fetches[id].(outcome := Some(outcome))]
    requires r.inFlight == c.inFlight && r.generation == c.generation && r.nextId == c.nextId
    ensures FetchesInv(r)
  {
    assert r.fetches.Keys == c.fetches.Keys;
    assert forall k | k in c.fetches :: r.fetches[k].generation == c.fetches[k].generation;
  }

  lemma ResolveKeeps(c: Cache, id: nat, spaces: seq<Space>, floor: nat)
    requires Inv(c) && FreshSince(c, floor) && Waiting(c, id)
    ensures Inv(ResolvedFetch(c, id, spaces)) && FreshSince(ResolvedFetch(c, id, spaces), floor)
  {
    OutcomeKeepsFetches(c, ResolvedFetch(c, id, spaces), id, Resolved(spaces));
    assert id < c.nextId && (c.fetches[id].generation == c.generation ==> c.inFlight == Some(id));
    hide FetchesInv;
  }

  lemma RejectKeeps(c: Cache, id: nat, floor: nat)
    requires Inv(c) && FreshSince(c, floor) && Waiting(c, id)
    ensures Inv(Apply(c, Reject(id))) && FreshSince(Apply(c, Reject(id)), floor)
  {
    OutcomeKeepsFetches(c, Apply(c, Reject(id)), id, Rejected);
    hide FetchesInv;
  }

  lemma FinallyKeeps(c: Cache, id: nat, floor: nat)
    requires Inv(c) && FreshSince(c, floor) && id in c.fetches
    ensures Inv(FinallyRun(c, id)) && FreshSince(FinallyRun(c, id), floor)
  {
  }

  lemma StepKeeps(c: Cache, e: Event, floor: nat)
    requires Inv(c) && FreshSince(c, floor)
    ensures Inv(Apply(c, e)) && FreshSince(Apply(c, e), floor)
  {
    if e.Load? {
      LoadKeeps(c, floor);
    } else if e.Invalidate? {
      InvalidateKeeps(c);
    } else if e.Resolve? {
      if Waiting(c, e.id) { ResolveKeeps(c, e.id, e.spaces, floor); }
    } else if e.Reject? {
      if Waiting(c, e.id) { RejectKeeps(c, e.id, floor); }
    } else if e.Finally? {
      if e.id in c.fetches { FinallyKeeps(c, e.id, floor); }
    }
  }

  lemma {:induction false} RunKeeps(c: Cache, run: seq<Event>, floor: nat)
    requires Inv(c) && FreshSince(c, floor)
    ensures Inv(After(c, run)) && FreshSince(After(c, run), floor)
    decreases |run|
  {
    if run != [] {
      StepKeeps(c, run[0], floor);
      RunKeeps(Apply(c, run[0]), run[1..], floor);
    }
  }

  /**
   On every schedule, a load issued after an invalidation is answered from a fetch begun after it:
   cached data younger than the time to live, or the promise of the generation's one running fetch.
   */
  lemma LoadsAfterAnInvalidationAreFresh(now: nat, before: seq<Event>, after: seq<Event>)
    ensures var stale := After(Start(now), before);
            var c := After(Invalidated(stale), after);
            && stale.nextId <= Source(c)
            && match Loaded(c).1
               case Cached(spaces) =>
                 Source(c) in c.results && c.results[Source(c)].spaces == spaces &&
                 c.now < c.results[Source(c)].at + TTL
               case Promised(id) =>
                 id in Loaded(c).0.fetches && Loaded(c).0.fetches[id].generation == c.generation
  {
    RunKeeps(Start(now), before, 0);
    var stale := After(Start(now), before);
    RunKeeps(Invalidated(stale), after, stale.nextId);
  }

  /** On every schedule, at most one fetch of a generation is unfinished. */
  lemma OneFetchPerGeneration(now: nat, run: seq<Event>, id: nat, other: nat)
    requires id in After(Start(now), run).fetches && other in After(Start(now), run).fetches
    requires After(Start(now), run).fetches[id].generation == After(Start(now), run).fetches[other].generation
    ensures id == other
  {
    RunKeeps(Start(now), run, 0);
  }

  // ---- how long a list is served ----

  lemma {:induction false} TicksOnly(c: Cache, run: seq<Event>)
    requires forall e | e in run :: e.Tick? || e.Load?
    requires c.cachedSpaces.Some? && c.cachedAt <= c.now <= After(c, run).now < c.cachedAt + 45_000
    ensures After(c, run) == c.(now := After(c, run).now)
    decreases |run|
  {
    if run != [] {
      TimePasses(Apply(c, run[0]), run[1..]);
      assert forall e | e in run[1..] :: e in run;
      TicksOnly(Apply(c, run[0]), run[1..]);
    }
  }

  lemma {:induction false} TimePasses(c: Cache, run: seq<Event>)
    ensures c.now <= After(c, run).now
    decreases |run|
  {
    if run != [] { TimePasses(Apply(c, run[0]), run[1..]); }
  }

  /**
   On every schedule, what a fetch of the current generation delivers is served to every load of the next
   45 seconds, as it is and without another fetch; a load after that gets the one running fetch, or begins one.
   */
  lemma AListIsServedForItsTime(now: nat, run: seq<Event>, id: nat, spaces: seq<Space>, later: seq<Event>)
    requires Waiting(After(Start(now), run), id)
    requires After(Start(now), run).fetches[id].generation == After(Start(now), run).generation
    requires forall e | e in later :: e.Tick? || e.Load?
    ensures var c := After(Start(now), run); var delivered := Apply(c, Resolve(id, spaces));
            var l := After(delivered, later);
      && (l.now < c.now + 45_000 ==>
            Loaded(l) == (l, Cached(spaces)) && l.fetches == delivered.fetches && l.nextId == delivered.nextId)
  {
    var delivered := Apply(After(Start(now), run), Resolve(id, spaces));
    TimePasses(delivered, later);
    if After(delivered, later).now < delivered.now + 45_000 { TicksOnly(delivered, later); }
  }

  /** The current generation's fetch, if it has not run its `finally` yet. */
  predicate IsRunning(c: Cache, id: nat) { id in c.fetches && c.fetches[id].generation == c.generation }

  /**
   On every schedule, a load that finds no list, or one of 45 seconds or more, shares the generation's running
   fetch; if there is none, as after its `finally`, it begins exactly one, for the current generation.
   */
  lemma LoadsShareOrBegin(now: nat, run: seq<Event>)
    ensures var c := After(Start(now), run); var (r, reply) := Loaded(c);
      && (reply.Cached? <==> c.cachedSpaces.Some? && c.now < c.cachedAt + 45_000)
      && (reply.Cached? ==> r == c && reply.spaces == c.cachedSpaces.value)
      && (reply.Promised? ==> IsRunning(r, reply.id) && (IsRunning(c, reply.id) ==> r == c))
      && (reply.Promised? && !IsRunning(c, reply.id) ==>
            && (forall id :: !IsRunning(c, id)) && reply.id !in c.fetches && reply.id !in c.results
            && r.fetches == c.fetches[reply.id := Fetch(c.generation, None)]
            && r.cachedSpaces == c.cachedSpaces && r.generation == c.generation)
      && forall id | IsRunning(c, id) && c.fetches[id].outcome.Some? ::
           forall other :: !IsRunning(Apply(c, Finally(id)), other)
  {
    RunKeeps(Start(now), run, 0);
    hide After, Start;
  }

  // ---- the module's variables ----

  class AccessibleSpaces {
    var now: nat
    var cachedSpaces: Option<seq<Space>>
    var cachedAt: nat
    var inFlight: Option<nat>
    var generation: nat
    var fetches: map<nat, Fetch>
    var nextId: nat
    ghost var cachedFrom: nat
    ghost var results: map<nat, Delivery>

    ghost function Snapshot(): Cache
      reads this
    {
      Cache(now, cachedSpaces, cachedAt, inFlight, generation, fetches, nextId, cachedFrom, results)
    }

    constructor (now: nat)
      ensures Snapshot() == Start(now)
    {
      this.now, cachedSpaces, cachedAt, inFlight, generation, fetches, nextId := now, None, 0, None, 0, map[], 0;
      cachedFrom, results := 0, map[];
    }

    method LoadAccessibleSpaces() returns (reply: Reply)
      modifies this
      ensures Snapshot() == Apply(old(Snapshot()), Load) && reply == Loaded(old(Snapshot())).1
    {
      if cachedSpaces.Some? && now - cachedAt < TTL { return Cached(cachedSpaces.value); }
      if inFlight.None? {
        fetches := fetches[nextId := Fetch(generation, None)];
        inFlight := Some(nextId);
        nextId := nextId + 1;
      }
      return Promised(inFlight.value);
    }

    method InvalidateAccessibleSpaces()
      modifies this
      ensures Snapshot() == Apply(old(Snapshot()), Invalidate)
    {
      generation := generation + 1;
      inFlight := None;
      cachedSpaces := None;
      cachedAt := 0;
    }

    /** The `then` of the fetch: the merged pages have arrived. */
    method FetchResolved(id: nat, pages: seq<seq<Space>>)
      requires Waiting(Snapshot(), id)
      modifies this
      ensures Snapshot() == Apply(old(Snapshot()), Resolve(id, At(Flatten(pages), Firsts(Flatten(pages)))))
    {
      var spaces := MergePages(pages);
      if fetches[id].generation == generation {
        cachedSpaces := Some(spaces);
        cachedAt := now;
        cachedFrom := id;
      }
      fetches := fetches[id := fetches[id].(outcome := Some(Resolved(spaces)))];
      results := results[id := Delivery(spaces, now)];
    }

    /** The `finally` of the fetch. */
    method FetchFinished(id: nat)
      requires id in fetches && fetches[id].outcome.Some?
      modifies this
      ensures Snapshot() == Apply(old(Snapshot()), Finally(id))
    {
      if fetches[id].generation == generation { inFlight := None; }
      fetches := fetches - {id};
    }
  }
}
