/**
 Session refresh across tabs: each tab's refreshInFlight promise, the browser's one exclusive lock, and
 the record in shared storage.  A run interleaves any number of tabs.
 */
module RefreshCoordination {
  import opened Wrappers

  type TabId = nat

  const WINDOW: nat := 30 * 1000

  /** One navigator.locks.request, and the promise that its tab's callers hold. */
  datatype Request = Request(tab: TabId, id: nat)

  /** What an observer of the refresh endpoint and of the storage sees. */
  datatype Entry =
    | Started(id: nat, at: nat)
    | Succeeded(id: nat, at: nat, stored: bool)
    | Failed(id: nat, at: nat)
    | Forgotten(at: nat)

  datatype World = World(
    now: nat,
    record: Option<nat>,
    nextId: nat,
    inFlight: map<TabId, nat>,
    queue: seq<Request>,
    holder: Option<Request>,
    posts: set<nat>,
    settled: seq<Request>,
    log: seq<Entry>)

  datatype Event =
    | Call(tab: TabId, locks: bool)
    | Grant
    | Succeed(stored: bool)
    | Fail
    | Finally(i: nat)
    | Tick(elapsed: nat)
    | Forget
    | Close(tab: TabId)

  predicate Recent(record: Option<nat>, now: nat) {
    record.Some? && now - record.value < WINDOW
  }

  /** refreshSession: the promise the caller gets, None when the browser has no locks. */
  function CallRefresh(w: World, tab: TabId, locks: bool): (World, Option<nat>) {
    if tab in w.inFlight then (w, Some(w.inFlight[tab]))
    else if !locks then (w, None)
    else
      (w.(nextId := w.nextId + 1, inFlight := w.inFlight[tab := w.nextId],
          queue := w.queue + [Request(tab, w.nextId)]), Some(w.nextId))
  }

  /** The lock is granted to the first request, and rotateSession runs up to its first suspension. */
  function GrantLock(w: World): World
    requires w.holder.None? && w.queue != []
  {
    var r := w.queue[0];
    if Recent(w.record, w.now) then w.(queue := w.queue[1..], settled := w.settled + [r])
    else w.(queue := w.queue[1..], holder := Some(r), posts := w.posts + {r.id}, log := w.log + [Started(r.id, w.now)])
  }

  /** The refresh call ends; on success the record is written, unless the storage refuses it. */
  function EndRefresh(w: World, success: bool, stored: bool): World
    requires w.holder.Some?
  {
    var r := w.holder.value;
    w.(holder := None, posts := w.posts - {r.id}, settled := w.settled + [r],
       record := if success && stored then Some(w.now) else w.record,
       log := w.log + [if success then Succeeded(r.id, w.now, stored) else Failed(r.id, w.now)])
  }

  function Without(requests: seq<Request>, tab: TabId): (r: seq<Request>)
    ensures forall q | q in r :: q in requests && q.tab != tab
    ensures forall q | q in requests && q.tab != tab :: q in r
  {
    if requests == [] then []
    else (if requests[0].tab == tab then [] else [requests[0]]) + Without(requests[1..], tab)
  }

  /** A closed tab drops its requests; a call it had open is aborted and its lock released. */
  function CloseTab(w: World, tab: TabId): World {
    var rest := w.(inFlight := w.inFlight - {tab}, queue := Without(w.queue, tab), settled := Without(w.settled, tab));
    if w.holder.Some? && w.holder.value.tab == tab
    then
      var id := w.holder.value.id;
      rest.(holder := None, posts := w.posts - {id}, log := w.log + [Failed(id, w.now)])
    else rest
  }

  function Apply(w: World, e: Event): World {
    match e
    case Call(tab, locks) => CallRefresh(w, tab, locks).0
    case Grant => if w.holder.None? && w.queue != [] then GrantLock(w) else w
    case Succeed(stored) => if w.holder.Some? then EndRefresh(w, true, stored) else w
    case Fail => if w.holder.Some? then EndRefresh(w, false, false) else w
    case Finally(i) =>
      if i < |w.settled|
      then w.(inFlight := w.inFlight - {w.settled[i].tab}, settled := w.settled[..i] + w.settled[i + 1..])
      else w
    case Tick(elapsed) => w.(now := w.now + elapsed)
    case Forget => w.(record := None, log := w.log + [Forgotten(w.now)])
    case Close(tab) => CloseTab(w, tab)
  }

  /** Nothing is going on yet; storage may hold the record of an earlier visit, which counts as request zero's. */
  function Start(now: nat, record: Option<nat>): World {
    World(now, record, 1, map[], [], None, {}, [], if record.Some? then [Succeeded(0, record.value, true)] else [])
  }

  function After(w: World, run: seq<Event>): World
    decreases |run|
  {
    if run == [] then w else After(Apply(w, run[0]), run[1..])
  }

  // ---- what every run keeps ----

  function Tabs(requests: seq<Request>): set<TabId> {
    set r | r in requests :: r.tab
  }

  ghost predicate OnePerTab(requests: seq<Request>) {
    forall i, j | 0 <= i < j < |requests| :: requests[i].tab != requests[j].tab
  }

  function Held(w: World): seq<Request> {
    if w.holder.Some? then [w.holder.value] else []
  }

  /** The last successful refresh, and whether its record is still in storage. */
  datatype Refresh = Refreshed(at: nat, kept: bool)

  function LastSuccess(log: seq<Entry>): Option<Refresh> {
    if log == [] then None
    else
      var last, before := log[|log| - 1], LastSuccess(log[..|log| - 1]);
      match last
      case Succeeded(_, at, stored) => Some(Refreshed(at, stored))
      case Forgotten(_) => if before.Some? then Some(before.value.(kept := false)) else None
      case _ => before
  }

  /**
   A tab has a promise exactly while it has one request that waits, holds the lock or has yet to run
   its `finally`; it never has two; the promise is that request's; and only the holder has a call open.
   */
  ghost predicate RequestsInv(w: World) {
    && OnePerTab(w.queue) && OnePerTab(w.settled)
    && Tabs(w.queue) !! Tabs(Held(w)) && Tabs(w.queue) !! Tabs(w.settled) && Tabs(Held(w)) !! Tabs(w.settled)
    && w.inFlight.Keys == Tabs(w.queue) + Tabs(Held(w)) + Tabs(w.settled)
    && (forall r | r in w.queue || r in Held(w) || r in w.settled :: r.tab in w.inFlight && w.inFlight[r.tab] == r.id)
    && w.posts == (if w.holder.Some? then {w.holder.value.id} else {})
  }

  /** The record is the last success's, or it is lost and whatever is in storage is old. */
  ghost predicate RecordInv(w: World) {
    && (w.holder.Some? ==> !Recent(w.record, w.now))
    && (w.record.Some? ==> w.record.value <= w.now)
    && match LastSuccess(w.log)
       case None => w.record == None
       case Some(s) => if s.kept then w.record == Some(s.at) else !Recent(w.record, w.now)
  }

  lemma Prepended(r: Request, requests: seq<Request>)
    ensures Tabs([r] + requests) == {r.tab} + Tabs(requests)
    ensures OnePerTab([r] + requests) <==> OnePerTab(requests) && r.tab !in Tabs(requests)
  {
    var all := [r] + requests;
    assert all[0] == r && all[1..] == requests;
    assert forall q | q in all :: q == r || q in requests;
    assert forall q | q in requests :: q in all;
    if OnePerTab(all) {
      forall i, j | 0 <= i < j < |requests| ensures requests[i].tab != requests[j].tab {
        assert requests[i] == all[i + 1] && requests[j] == all[j + 1];
      }
    }
  }

  lemma {:induction false} WithoutTab(requests: seq<Request>, tab: TabId)
    requires OnePerTab(requests)
    ensures OnePerTab(Without(requests, tab)) && Tabs(Without(requests, tab)) == Tabs(requests) - {tab}
  {
    hide Tabs, OnePerTab;
    if requests == [] {
      NoTabs();
    } else {
      var first, rest := requests[0], requests[1..];
      assert requests == [first] + rest;
      Prepended(first, rest);
      WithoutTab(rest, tab);
      Prepended(first, Without(rest, tab));
      assert Without(requests, tab) == if first.tab == tab then Without(rest, tab) else [first] + Without(rest, tab);
    }
  }

  lemma NoTabs()
    ensures Tabs([]) == {}
  {
  }

  lemma Joined(requests: seq<Request>, r: Request)
    requires OnePerTab(requests) && r.tab !in Tabs(requests)
    ensures OnePerTab(requests + [r]) && Tabs(requests + [r]) == Tabs(requests) + {r.tab}
  {
    assert forall q | q in requests + [r] :: q in requests || q == r;
    assert r in requests + [r] && forall q | q in requests :: q in requests + [r];
  }

  lemma Left(requests: seq<Request>, i: nat)
    requires OnePerTab(requests) && i < |requests|
    ensures var rest := requests[..i] + requests[i + 1..];
            && OnePerTab(rest) && Tabs(rest) == Tabs(requests) - {requests[i].tab}
            && forall r | r in rest :: r in requests
  {
    var rest := requests[..i] + requests[i + 1..];
    assert requests == requests[..i] + [requests[i]] + requests[i + 1..];
    assert forall r | r in requests :: r in rest || r == requests[i];
    assert forall j | 0 <= j < |rest| :: rest[j] == requests[if j < i then j else j + 1];
  }

  lemma FirstLeaves(requests: seq<Request>)
    requires OnePerTab(requests) && requests != []
    ensures var first, rest := requests[0], requests[1..];
            && first in requests && OnePerTab(rest) && Tabs(requests) == {first.tab} + Tabs(rest)
            && first.tab !in Tabs(rest) && forall r | r in rest :: r in requests
  {
    assert requests == [requests[0]] + requests[1..];
    Prepended(requests[0], requests[1..]);
  }

  lemma CloseKeepsRequests(w: World, tab: TabId)
    requires RequestsInv(w)
    ensures RequestsInv(CloseTab(w, tab))
  {
    hide Tabs, OnePerTab, Without, Held;
    WithoutTab(w.queue, tab);
    WithoutTab(w.settled, tab);
    HeldTabs(w);
    HeldTabs(CloseTab(w, tab));
  }

  lemma HeldTabs(w: World)
    ensures Tabs(Held(w)) == if w.holder.Some? then {w.holder.value.tab} else {}
    ensures forall r | r in Held(w) :: w.holder == Some(r)
    ensures w.holder.Some? ==> w.holder.value in Held(w)
  {
  }

  lemma CallKeepsRequests(w: World, tab: TabId, locks: bool)
    requires RequestsInv(w)
    ensures RequestsInv(CallRefresh(w, tab, locks).0)
  {
    hide Tabs, OnePerTab;
    var r := CallRefresh(w, tab, locks).0;
    if tab !in w.inFlight {
      Joined(w.queue, Request(tab, w.nextId));
      assert Held(r) == Held(w);
      TabOf(w.queue + Held(w) + w.settled);
    }
  }

  lemma TabOf(requests: seq<Request>)
    ensures forall r | r in requests :: r.tab in Tabs(requests)
  {
  }

  lemma GrantKeepsRequests(w: World)
    requires RequestsInv(w) && w.holder.None? && w.queue != []
    ensures RequestsInv(GrantLock(w))
  {
    hide Tabs, OnePerTab, Held;
    var r, first := GrantLock(w), w.queue[0];
    FirstLeaves(w.queue);
    HeldTabs(w);
    HeldTabs(r);
    if Recent(w.record, w.now) {
      Joined(w.settled, first);
      assert forall q | q in r.settled :: q in w.settled || q == first;
    }
  }

  lemma EndKeepsRequests(w: World, success: bool, stored: bool)
    requires RequestsInv(w) && w.holder.Some?
    ensures RequestsInv(EndRefresh(w, success, stored))
  {
    hide Tabs, OnePerTab;
    HeldTabs(w);
    HeldTabs(EndRefresh(w, success, stored));
    Joined(w.settled, w.holder.value);
  }

  lemma OneTabLeaves(waiting: set<TabId>, holding: set<TabId>, settled: set<TabId>, tab: TabId)
    requires waiting !! settled && holding !! settled && tab in settled
    ensures waiting + holding + settled - {tab} == waiting + holding + (settled - {tab})
  {
  }

  lemma FinallyKeepsRequests(w: World, i: nat)
    requires RequestsInv(w) && i < |w.settled|
    ensures RequestsInv(Apply(w, Finally(i)))
  {
    var tab, r := w.settled[i].tab, Apply(w, Finally(i));
    assert Held(r) == Held(w);
    assert r.inFlight.Keys == w.inFlight.Keys - {tab};
    hide Tabs, OnePerTab, Held;
    Left(w.settled, i);
    TabOf(w.queue);
    TabOf(Held(w));
    TabOf(r.settled);
    TabOf(w.settled);
    OneTabLeaves(Tabs(w.queue), Tabs(Held(w)), Tabs(w.settled), tab);
    forall q | q in r.queue || q in Held(r) || q in r.settled ensures q.tab in r.inFlight && r.inFlight[q.tab] == q.id {
      assert q.tab != tab && (q in w.queue || q in Held(w) || q in w.settled);
    }
  }

  lemma StepKeepsRequests(w: World, e: Event)
    requires RequestsInv(w)
    ensures RequestsInv(Apply(w, e))
  {
    hide RequestsInv;
    match e
    case Call(tab, locks) => CallKeepsRequests(w, tab, locks);
    case Grant => if w.holder.None? && w.queue != [] { GrantKeepsRequests(w); }
    case Succeed(stored) => if w.holder.Some? { EndKeepsRequests(w, true, stored); }
    case Fail => if w.holder.Some? { EndKeepsRequests(w, false, false); }
    case Finally(i) => if i < |w.settled| { FinallyKeepsRequests(w, i); }
    case Tick(elapsed) => SameRequests(w, Apply(w, e));
    case Forget => SameRequests(w, Apply(w, e));
    case Close(tab) => CloseKeepsRequests(w, tab);
  }

  lemma SameRequests(w: World, r: World)
    requires RequestsInv(w) && r == w.(now := r.now, record := r.record, log := r.log)
    ensures RequestsInv(r)
  {
    assert Held(r) == Held(w);
  }

  lemma Logged(log: seq<Entry>, e: Entry)
    ensures LastSuccess(log + [e]) ==
            match e
            case Succeeded(_, at, stored) => Some(Refreshed(at, stored))
            case Forgotten(_) => if LastSuccess(log).Some? then Some(LastSuccess(log).value.(kept := false)) else None
            case _ => LastSuccess(log)
  {
    assert (log + [e])[..|log|] == log;
  }

  lemma StepKeepsRecord(w: World, e: Event)
    requires RecordInv(w)
    ensures RecordInv(Apply(w, e))
  {
    var r := Apply(w, e);
    if |r.log| > |w.log| { Logged(w.log, r.log[|w.log|]); }
  }

  // ---- over whole runs ----

  /** No refresh in the log started within the window of the last success before it, if its record survived. */
  ghost predicate SpacedOut(log: seq<Entry>) {
    forall j | 0 <= j < |log| && log[j].Started? ::
      var s := LastSuccess(log[..j]); s.Some? && s.value.kept ==> log[j].at >= s.value.at + 30 * 1000
  }

  lemma StepKeepsSpacing(w: World, e: Event)
    requires RecordInv(w) && SpacedOut(w.log)
    ensures SpacedOut(Apply(w, e).log)
  {
    var r := Apply(w, e);
    assert r.log == w.log || (|r.log| == |w.log| + 1 && r.log[..|w.log|] == w.log);
    forall j | 0 <= j < |r.log| && r.log[j].Started?
      ensures var s := LastSuccess(r.log[..j]); s.Some? && s.value.kept ==> r.log[j].at >= s.value.at + WINDOW
    {
      if j < |w.log| { assert r.log[..j] == w.log[..j]; }
    }
  }

  ghost predicate Inv(w: World) {
    RequestsInv(w) && RecordInv(w) && SpacedOut(w.log)
  }

  lemma {:induction false} RunKeeps(w: World, run: seq<Event>)
    requires Inv(w)
    ensures Inv(After(w, run))
    decreases |run|
  {
    if run != [] {
      StepKeepsRequests(w, run[0]);
      StepKeepsRecord(w, run[0]);
      StepKeepsSpacing(w, run[0]);
      RunKeeps(Apply(w, run[0]), run[1..]);
    }
  }

  lemma StartHolds(now: nat, record: Option<nat>)
    requires record.Some? ==> record.value <= now
    ensures Inv(Start(now, record))
  {
    if record.Some? { Logged([], Succeeded(0, record.value, true)); }
  }

  /**
   For any tabs, any schedule and any record of an earlier visit: at most one refresh call is open; no call started
   within 30 s of the last successful one, unless that one's record was lost; and the next waiting tab starts a call
   exactly when there is no such surviving record.
   */
  lemma RefreshesAreSpacedOut(now: nat, record: Option<nat>, run: seq<Event>)
    requires record.Some? ==> record.value <= now
    ensures var w := After(Start(now, record), run);
            && |w.posts| <= 1
            && SpacedOut(w.log)
            && (w.holder.None? && w.queue != [] ==>
                  var last, r := LastSuccess(w.log), Apply(w, Grant);
                  if last.Some? && last.value.kept && w.now - last.value.at < 30 * 1000
                  then r.posts == w.posts && r.log == w.log && r.holder.None? && r.settled == w.settled + [w.queue[0]]
                  else r.posts == {w.queue[0].id} && r.log == w.log + [Started(w.queue[0].id, w.now)] &&
                       r.holder == Some(w.queue[0]) && r.settled == w.settled)
            && (w.holder.None? && w.queue != [] ==> Apply(w, Grant).queue == w.queue[1..])
  {
    StartHolds(now, record);
    RunKeeps(Start(now, record), run);
  }

  /** What a tab's callers share: every call before the promise settles gets the promise of one lock request. */
  lemma CallersShareOneRequest(now: nat, record: Option<nat>, run: seq<Event>, tab: TabId, locks: bool)
    requires record.Some? ==> record.value <= now
    ensures var w := After(Start(now, record), run);
            var (r, promise) := CallRefresh(w, tab, locks);
            && (promise.None? <==> !locks && tab !in w.inFlight)
            && (promise.Some? ==>
                  && CallRefresh(r, tab, locks) == (r, promise)
                  && OnePerTab(r.queue) && OnePerTab(r.settled)
                  && (forall q | q in r.queue + Held(r) + r.settled && q.tab == tab :: q.id == promise.value)
                  && exists q :: q in r.queue + Held(r) + r.settled && q.tab == tab)
  {
    StartHolds(now, record);
    RunKeeps(Start(now, record), run);
    var w := After(Start(now, record), run);
    CallKeepsRequests(w, tab, locks);
    var (r, promise) := CallRefresh(w, tab, locks);
    if promise.Some? {
      assert tab in r.inFlight.Keys;
      RequestOf(r, tab);
    }
  }

  lemma RequestOf(w: World, tab: TabId)
    requires tab in Tabs(w.queue) + Tabs(Held(w)) + Tabs(w.settled)
    ensures exists q :: q in w.queue + Held(w) + w.settled && q.tab == tab
  {
    var q :| (q in w.queue || q in Held(w) || q in w.settled) && q.tab == tab;
    assert q in w.queue + Held(w) + w.settled;
  }

  // ---- how a request ends ----

  /** The tab holds no promise and has no request that waits, holds the lock or has yet to run its `finally`. */
  ghost predicate HasNone(w: World, tab: TabId) {
    tab !in w.inFlight && forall q | q in w.queue || Some(q) == w.holder || q in w.settled :: q.tab != tab
  }

  /** Every other tab keeps the promise it holds, or goes on holding none. */
  ghost predicate OthersKeep(w: World, tab: TabId, r: World) {
    forall u: TabId | u != tab ::
      (u in r.inFlight <==> u in w.inFlight) && (u in w.inFlight ==> r.inFlight[u] == w.inFlight[u])
  }

  /** No promise held now has an id that is still to be given out. */
  ghost predicate IdsBelow(w: World, bound: nat) {
    w.nextId <= bound && forall u | u in w.inFlight :: w.inFlight[u] < w.nextId
  }

  lemma {:induction false} IdsGrow(w: World, run: seq<Event>)
    requires IdsBelow(w, w.nextId)
    ensures IdsBelow(After(w, run), After(w, run).nextId) && w.nextId <= After(w, run).nextId
    decreases |run|
  {
    if run != [] {
      hide GrantLock, EndRefresh, Without;
      assert IdsBelow(Apply(w, run[0]), Apply(w, run[0]).nextId) && w.nextId <= Apply(w, run[0]).nextId by {
        StepIds(w, run[0]);
      }
      hide Apply;
      IdsGrow(Apply(w, run[0]), run[1..]);
    }
  }

  lemma StepIds(w: World, e: Event)
    requires IdsBelow(w, w.nextId)
    ensures IdsBelow(Apply(w, e), Apply(w, e).nextId) && w.nextId <= Apply(w, e).nextId
  {
  }

  lemma {:induction false} AfterInTwo(w: World, run: seq<Event>, k: nat)
    requires k <= |run|
    ensures After(w, run) == After(After(w, run[..k]), run[k..])
    decreases k
  {
    if k == 0 {
      assert run[..0] == [] && run[0..] == run;
    } else {
      AfterInTwo(Apply(w, run[0]), run[1..], k - 1);
      assert run[..k][1..] == run[1..][..k - 1] && run[1..][k - 1..] == run[k..];
    }
  }

  /** No promise held at any earlier moment of a run has the id that is given out next. */
  lemma NextIdIsNew(now: nat, record: Option<nat>, run: seq<Event>, k: nat, tab: TabId)
    requires k <= |run| && tab in After(Start(now, record), run[..k]).inFlight
    ensures After(Start(now, record), run[..k]).inFlight[tab] < After(Start(now, record), run).nextId
  {
    IdsGrow(Start(now, record), run[..k]);
    IdsGrow(After(Start(now, record), run[..k]), run[k..]);
    AfterInTwo(Start(now, record), run, k);
  }

  lemma FinallyLeavesNone(w: World, i: nat)
    requires RequestsInv(w) && i < |w.settled|
    ensures HasNone(Apply(w, Finally(i)), w.settled[i].tab) && OthersKeep(w, w.settled[i].tab, Apply(w, Finally(i)))
  {
    var tab, r := w.settled[i].tab, Apply(w, Finally(i));
    FinallyKeepsRequests(w, i);
    TabOf(r.queue);
    TabOf(Held(r));
    TabOf(r.settled);
    HeldTabs(r);
    hide Tabs, OnePerTab;
    assert tab !in r.inFlight.Keys;
  }

  /**
   On every schedule, once the `finally` of a settled promise has run its tab holds no promise and has no
   request left, and the other tabs keep theirs.  The tab's next call gets a promise that no tab has held
   at any earlier moment, and makes exactly one new request for the lock.
   */
  lemma SettledPromisesAreLetGo(now: nat, record: Option<nat>, run: seq<Event>, i: nat)
    requires (record.Some? ==> record.value <= now) && i < |After(Start(now, record), run).settled|
    ensures var w := After(Start(now, record), run);
            var tab, r := w.settled[i].tab, Apply(w, Finally(i));
            var (called, promise) := CallRefresh(r, tab, true);
            && HasNone(r, tab) && OthersKeep(w, tab, r) && r.log == w.log && r.record == w.record
            && promise.Some? && called == r.(nextId := called.nextId, inFlight := r.inFlight[tab := promise.value],
                                             queue := r.queue + [Request(tab, promise.value)])
            && forall k, u | 0 <= k <= |run| && u in After(Start(now, record), run[..k]).inFlight ::
                 After(Start(now, record), run[..k]).inFlight[u] != promise.value
  {
    StartHolds(now, record);
    RunKeeps(Start(now, record), run);
    var w := After(Start(now, record), run);
    FinallyLeavesNone(w, i);
    hide After, Start, RequestsInv, RecordInv, SpacedOut, HasNone, OthersKeep;
    var tab, r := w.settled[i].tab, Apply(w, Finally(i));
    assert tab !in r.inFlight;
    forall k, u | 0 <= k <= |run| && u in After(Start(now, record), run[..k]).inFlight
      ensures After(Start(now, record), run[..k]).inFlight[u] < w.nextId
    {
      NextIdIsNew(now, record, run, k, u);
    }
  }

  /**
   On every schedule, a refresh call that ends, one way or the other, frees the lock and leaves its request
   settled; a tab that closes holds nothing afterwards, frees the lock if it had it, and leaves the others alone.
   */
  lemma LocksAreFreed(now: nat, record: Option<nat>, run: seq<Event>, stored: bool, tab: TabId)
    requires record.Some? ==> record.value <= now
    ensures var w := After(Start(now, record), run);
            && (w.holder.Some? ==>
                  forall e | e in {Succeed(stored), Fail} ::
                    var r := Apply(w, e);
                    r.holder.None? && r.posts == {} && r.settled == w.settled + [w.holder.value] && r.queue == w.queue)
            && var c := Apply(w, Close(tab));
               && HasNone(c, tab) && OthersKeep(w, tab, c)
               && (c.holder.None? <==> w.holder.None? || w.holder.value.tab == tab)
  {
    StartHolds(now, record);
    RunKeeps(Start(now, record), run);
    hide After, Start, RecordInv, SpacedOut, RequestsInv, HasNone, OthersKeep, Apply;
    var w := After(Start(now, record), run);
    if w.holder.Some? { CallEnds(w, stored); }
    TabCloses(w, tab);
  }

  lemma CallEnds(w: World, stored: bool)
    requires RequestsInv(w) && w.holder.Some?
    ensures forall e | e in {Succeed(stored), Fail} ::
              var r := Apply(w, e);
              r.holder.None? && r.posts == {} && r.settled == w.settled + [w.holder.value] && r.queue == w.queue
  {
  }

  lemma TabCloses(w: World, tab: TabId)
    requires RequestsInv(w)
    ensures var c := Apply(w, Close(tab));
            && HasNone(c, tab) && OthersKeep(w, tab, c)
            && (c.holder.None? <==> w.holder.None? || w.holder.value.tab == tab)
  {
  }

  /** Grants of the lock, failures of the open call and `finally` callbacks: what happens with no help from outside. */
  predicate Unaided(run: seq<Event>) { forall e | e in run :: e.Grant? || e.Fail? || e.Finally? }

  lemma AfterFirst(w: World, e: Event, rest: seq<Event>)
    ensures After(w, [e] + rest) == After(Apply(w, e), rest)
  {
    assert ([e] + rest)[1..] == rest;
  }

  lemma {:induction false} PromiseSettles(w: World, tab: TabId) returns (run: seq<Event>)
    requires RequestsInv(w) && tab in w.inFlight
    ensures Unaided(run) && tab !in After(w, run).inFlight
    ensures |run| <= 2 * |w.queue| + 1 + if w.holder.Some? then 1 else 0
    decreases |w.queue|, w.holder.Some?
  {
    if i: nat :| i < |w.settled| && w.settled[i].tab == tab {
      run := [Finally(i)];
      AfterFirst(w, Finally(i), []);
      assert After(Apply(w, Finally(i)), []) == Apply(w, Finally(i));
    } else if w.holder.Some? {
      StepKeepsRequests(w, Fail);
      var rest := PromiseSettles(Apply(w, Fail), tab);
      AfterFirst(w, Fail, rest);
      run := [Fail] + rest;
    } else {
      assert tab in Tabs(w.queue);
      StepKeepsRequests(w, Grant);
      var rest := PromiseSettles(Apply(w, Grant), tab);
      AfterFirst(w, Grant, rest);
      run := [Grant] + rest;
    }
  }

  /**
   From every state of every schedule, every promise can settle and be let go without any other tab acting and
   even if every call fails: in at most two steps for each request that waits, and two more.
   */
  lemma NoPromiseIsStuck(now: nat, record: Option<nat>, run: seq<Event>, tab: TabId) returns (more: seq<Event>)
    requires (record.Some? ==> record.value <= now) && tab in After(Start(now, record), run).inFlight
    ensures Unaided(more) && |more| <= 2 * |After(Start(now, record), run).queue| + 2
    ensures tab !in After(After(Start(now, record), run), more).inFlight
  {
    StartHolds(now, record);
    RunKeeps(Start(now, record), run);
    more := PromiseSettles(After(Start(now, record), run), tab);
  }

  /** The record is what spaces refreshes out: a tab that finds it gone refreshes at once. */
  lemma ALostRecordAllowsAnEarlyRefresh(now: nat)
    ensures var w := After(Start(now, None), [Call(0, true), Call(1, true), Grant, Succeed(false), Grant]);
            w.log == [Started(1, now), Succeeded(1, now, false), Started(2, now)]
  {
    var w1 := Apply(Start(now, None), Call(0, true));
    var w2 := Apply(w1, Call(1, true));
    var w3 := Apply(w2, Grant);
    var w4 := Apply(w3, Succeed(false));
    var w5 := Apply(w4, Grant);
    assert After(w4, [Grant]) == w5;
    assert After(w3, [Succeed(false), Grant]) == w5;
    assert After(w2, [Grant, Succeed(false), Grant]) == w5;
    assert After(w1, [Call(1, true), Grant, Succeed(false), Grant]) == w5;
  }

  // ---- the browser the tabs run in ----

  class Browser {
    var now: nat
    var record: Option<nat>
    var nextId: nat
    var inFlight: map<TabId, nat>
    var queue: seq<Request>
    var holder: Option<Request>
    var posts: set<nat>
    var settled: seq<Request>
    ghost var log: seq<Entry>

    ghost function Snapshot(): World
      reads this
    {
      World(now, record, nextId, inFlight, queue, holder, posts, settled, log)
    }

    constructor (now: nat, record: Option<nat>)
      ensures Snapshot() == Start(now, record)
    {
      this.now, this.record, nextId, inFlight, queue, holder, posts, settled := now, record, 1, map[], [], None, {}, [];
      log := if record.Some? then [Succeeded(0, record.value, true)] else [];
    }

    method RefreshSession(tab: TabId, locks: bool) returns (promise: Option<nat>)
      modifies this
      ensures Snapshot() == Apply(old(Snapshot()), Call(tab, locks))
      ensures promise == CallRefresh(old(Snapshot()), tab, locks).1
    {
      if tab in inFlight { return Some(inFlight[tab]); }
      if !locks { return None; }
      promise := Some(nextId);
      queue := queue + [Request(tab, nextId)];
      inFlight := inFlight[tab := nextId];
      nextId := nextId + 1;
    }

    /** rotateSession, from the grant of the lock to its first suspension. */
    method RotateSession()
      requires holder.None? && queue != []
      modifies this
      ensures Snapshot() == Apply(old(Snapshot()), Grant)
    {
      var r := queue[0];
      queue := queue[1..];
      if record.Some? && now - record.value < WINDOW {
        settled := settled + [r];
        return;
      }
      holder := Some(r);
      posts := posts + {r.id};
      log := log + [Started(r.id, now)];
    }

    method CompleteRefresh(success: bool, stored: bool)
      requires holder.Some?
      modifies this
      ensures Snapshot() == Apply(old(Snapshot()), if success then Succeed(stored) else Fail)
    {
      var r := holder.value;
      posts := posts - {r.id};
      if success {
        if stored { record := Some(now); }
        log := log + [Succeeded(r.id, now, stored)];
      } else {
        log := log + [Failed(r.id, now)];
      }
      holder := None;
      settled := settled + [r];
    }

    method RunFinally(i: nat)
      requires i < |settled|
      modifies this
      ensures Snapshot() == Apply(old(Snapshot()), Finally(i))
    {
      inFlight := inFlight - {settled[i].tab};
      settled := settled[..i] + settled[i + 1..];
    }
  }
}
