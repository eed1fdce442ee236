/**
 The page-pagination hook: a counter, an abort controller and the last state, changed by requests
 whose answers arrive in any order.
 */
module PagePagination {
  import opened Wrappers

  type Item = nat
  type Key = string

  datatype PageResult = PageResult(items: seq<Item>, page: int, pageSize: int, totalItems: int, totalPages: int)

  datatype View = View(
    items: seq<Item>, page: int, pageSize: int, totalItems: int, totalPages: int,
    initialLoading: bool, loading: bool, loadingPage: Option<int>, retryPage: Option<int>,
    resolvedQueryKey: Option<Key>, error: Option<string>)

  /**
   One call of fetchPage that waits for its answer.  `origin` is the page its caller asked for and
   `depth` how many out-of-range answers led from there to here.
   */
  datatype Request = Request(id: nat, target: int, key: Key, pending: View, origin: int, depth: nat)

  datatype Answer = Loaded(result: PageResult) | Broken(message: string)

  /**
   The refs of the hook.  The last three fields are history: the newest request, whether it is still
   the last thing asked for, and the answers that were accepted.
   */
  datatype Hook = Hook(
    requestId: nat, controller: Option<nat>, aborted: set<nat>, view: View, key: Key, open: map<nat, Request>,
    newest: Option<Request>, live: Option<nat>, accepted: map<nat, Answer>)

  datatype Event =
    | GoToPage(page: Option<real>)
    | Reload
    | NextPage
    | PreviousPage
    | RunEffect(key: Key, initialPage: int)
    | Unmount
    | Settle(id: nat, answer: Answer)

  // ---- fetchPage ----

  function Trunc(r: real): int {
    if r >= 0.0 then r.Floor else -(-r).Floor
  }

  /** Not a finite number: page one. */
  function TargetPage(requested: Option<real>): (target: int)
    ensures target >= 1
    ensures requested.Some? && requested.value >= 1.0 ==> target as real <= requested.value < (target + 1) as real
  {
    if requested.Some? && Trunc(requested.value) > 1 then Trunc(requested.value) else 1
  }

  function PendingView(previous: View, target: int, clearItems: bool): View {
    var kept := if clearItems
                then previous.(items := [], page := target, pageSize := 0, totalItems := 0, totalPages := 0)
                else previous;
    kept.(initialLoading := clearItems || previous.items == [], loading := true, loadingPage := Some(target),
          retryPage := None, error := None)
  }

  /** `from` is the request whose out-of-range answer leads to this one. */
  function Fetch(h: Hook, requested: Option<real>, clearItems: bool, from: Option<Request>): Hook {
    var target := TargetPage(requested);
    var id := h.requestId + 1;
    var pending := PendingView(h.view, target, clearItems);
    var request := Request(id, target, h.key, pending, if from.Some? then from.value.origin else target,
                           if from.Some? then from.value.depth + 1 else 0);
    h.(requestId := id, controller := Some(id),
       aborted := if h.controller.Some? then h.aborted + {h.controller.value} else h.aborted,
       view := pending, open := h.open[id := request], newest := Some(request), live := Some(id))
  }

  predicate OutOfRange(request: Request, result: PageResult) {
    result.items == [] && request.target > 1 && result.totalPages >= 1 && request.target > result.totalPages
  }

  function LoadedView(result: PageResult, key: Key): View {
    View(result.items, result.page, result.pageSize, result.totalItems, result.totalPages,
         false, false, None, None, Some(key), None)
  }

  function BrokenView(request: Request, message: string): View {
    request.pending.(initialLoading := false, loading := false, loadingPage := None,
                     retryPage := Some(request.target), resolvedQueryKey := Some(request.key), error := Some(message))
  }

  /** The code's own test for an answer nobody waits for any more. */
  predicate Superseded(h: Hook, id: nat) {
    id in h.aborted || id != h.requestId
  }

  function Answered(h: Hook, id: nat, answer: Answer): Hook
    requires id in h.open
  {
    var request := h.open[id];
    var rest := h.(open := h.open - {id});
    if Superseded(h, id) then rest
    else
      var noted := rest.(accepted := h.accepted[id := answer]);
      match answer
      case Loaded(result) =>
        if OutOfRange(request, result) then Fetch(noted, Some(result.totalPages as real), false, Some(request))
        else noted.(view := LoadedView(result, request.key))
      case Broken(message) => noted.(view := BrokenView(request, message))
  }

  /** The page that failed, or the one that is shown. */
  function ReloadTarget(view: View): int {
    if view.retryPage.Some? then view.retryPage.value else view.page
  }

  /** What the effect's clean-up does, before the effect runs again or the component goes. */
  function Cleanup(h: Hook): Hook {
    h.(requestId := h.requestId + 1, live := None,
       aborted := if h.controller.Some? then h.aborted + {h.controller.value} else h.aborted)
  }

  function Apply(h: Hook, e: Event): Hook {
    match e
    case GoToPage(page) => Fetch(h, page, false, None)
    case Reload => Fetch(h, Some(ReloadTarget(h.view) as real), false, None)
    case NextPage =>
      if h.view.page < h.view.totalPages then Fetch(h, Some((h.view.page + 1) as real), false, None) else h
    case PreviousPage => if h.view.page > 1 then Fetch(h, Some((h.view.page - 1) as real), false, None) else h
    case RunEffect(key, initialPage) => Fetch(Cleanup(h).(key := key), Some(initialPage as real), false, None)
    case Unmount => Cleanup(h)
    case Settle(id, answer) => if id in h.open then Answered(h, id, answer) else h
  }

  /** The hook after its first effect: the initial page is asked for. */
  function Mount(key: Key, initialPage: int): Hook {
    var view := View([], initialPage, 0, 0, 0, true, true, Some(initialPage), None, None, None);
    Fetch(Hook(0, None, {}, view, key, map[], None, None, map[]), Some(initialPage as real), false, None)
  }

  function After(h: Hook, run: seq<Event>): Hook
    decreases |run|
  {
    if run == [] then h else After(Apply(h, run[0]), run[1..])
  }

  // ---- what every run keeps ----

  predicate IsPending(request: Request) {
    var v := request.pending;
    v.loading && v.loadingPage == Some(request.target) && v.retryPage == None && v.error == None
    && (v.initialLoading <==> v.items == [])
  }

  ghost predicate Inv(h: Hook) {
    && h.newest.Some? && h.controller == Some(h.newest.value.id) && h.newest.value.key == h.key
    && (forall id | id in h.open :: h.open[id].id == id && id <= h.requestId)
    && (forall id | id in h.accepted :: id <= h.requestId)
    && (forall id | id in h.aborted :: id <= h.requestId)
    && h.newest.value.id <= h.requestId
    // the counter and the controller agree with the history on which request is live
    && (h.live.Some? ==> h.live.value == h.newest.value.id == h.requestId && h.requestId !in h.aborted)
    && (h.live.None? ==> h.newest.value.id < h.requestId && h.newest.value.id in h.aborted)
    && (forall id | id in h.open ::
          (id in h.aborted <==> h.live != Some(id)) && (id == h.requestId ==> h.live == Some(id)))
    // the newest request is waiting, or its answer is what the view shows
    && (h.newest.value.id !in h.accepted ==> h.view == h.newest.value.pending)
    && (h.live.Some? && h.newest.value.id !in h.accepted ==> h.live.value in h.open)
    && (h.newest.value.id in h.open ==> h.open[h.newest.value.id] == h.newest.value && h.newest.value.id !in h.accepted)
    && (h.newest.value.id in h.accepted ==> h.view == match h.accepted[h.newest.value.id]
                                                     case Loaded(result) => LoadedView(result, h.newest.value.key)
                                                     case Broken(message) => BrokenView(h.newest.value, message))
    && IsPending(h.newest.value)
    && (h.newest.value.id in h.accepted && h.accepted[h.newest.value.id].Loaded? ==>
          !OutOfRange(h.newest.value, h.accepted[h.newest.value.id].result))
    // fallbacks go down
    && (forall id | id in h.open :: 1 <= h.open[id].target && h.open[id].depth + h.open[id].target <= h.open[id].origin)
  }

  /** What a new request needs of the refs: the counter is ahead, and at most the last request is not aborted. */
  ghost predicate Ready(h: Hook) {
    && (forall id | id in h.open :: h.open[id].id == id && id <= h.requestId)
    && (forall id | id in h.accepted || id in h.aborted :: id <= h.requestId)
    && (forall id | id in h.open :: id in h.aborted || h.controller == Some(id))
    && (h.controller.Some? ==> h.controller.value <= h.requestId)
    && (forall id | id in h.open :: 1 <= h.open[id].target && h.open[id].depth + h.open[id].target <= h.open[id].origin)
  }

  lemma InvIsReady(h: Hook, key: Key)
    requires Inv(h)
    ensures Ready(h) && Ready(Cleanup(h).(key := key)) && Inv(Cleanup(h))
  {
  }

  lemma FetchKeeps(h: Hook, requested: Option<real>, clearItems: bool, from: Option<Request>)
    requires Ready(h)
    requires from.Some? ==> from.value.depth + 1 + TargetPage(requested) <= from.value.origin
    ensures Inv(Fetch(h, requested, clearItems, from))
  {
  }

  lemma AnsweredKeeps(h: Hook, id: nat, answer: Answer)
    requires Inv(h) && id in h.open
    ensures Inv(Answered(h, id, answer))
  {
    var request := h.open[id];
    if !Superseded(h, id) && answer.Loaded? && OutOfRange(request, answer.result) {
      var noted := h.(open := h.open - {id}, accepted := h.accepted[id := answer]);
      FetchKeeps(noted, Some(answer.result.totalPages as real), false, Some(request));
    }
  }

  /** Any request that a caller makes, from the refs as they are or after a clean-up. */
  lemma NewRequestKeeps(h: Hook, key: Key, requested: Option<real>)
    requires Inv(h)
    ensures Inv(Fetch(h, requested, false, None))
    ensures Inv(Fetch(Cleanup(h).(key := key), requested, false, None)) && Inv(Cleanup(h))
  {
    InvIsReady(h, key);
    hide Inv, Ready, Fetch, Cleanup, TargetPage;
    FetchKeeps(h, requested, false, None);
    FetchKeeps(Cleanup(h).(key := key), requested, false, None);
  }

  lemma StepKeeps(h: Hook, e: Event)
    requires Inv(h)
    ensures Inv(Apply(h, e))
  {
    hide Inv, Fetch, Cleanup, Answered, Trunc, TargetPage, ReloadTarget;
    if e.Settle? {
      if e.id in h.open { AnsweredKeeps(h, e.id, e.answer); }
    } else if e.RunEffect? {
      NewRequestKeeps(h, e.key, Some(e.initialPage as real));
    } else {
      var requested := if e.GoToPage? then e.page
                       else if e.Reload? then Some(ReloadTarget(h.view) as real)
                       else if e.NextPage? then Some((h.view.page + 1) as real)
                       else Some((h.view.page - 1) as real);
      NewRequestKeeps(h, h.key, requested);
    }
  }

  lemma {:induction false} RunKeeps(h: Hook, run: seq<Event>)
    requires Inv(h)
    ensures Inv(After(h, run))
    decreases |run|
  {
    if run != [] {
      StepKeeps(h, run[0]);
      RunKeeps(Apply(h, run[0]), run[1..]);
    }
  }

  lemma MountKeeps(key: Key, initialPage: int, run: seq<Event>)
    ensures Inv(After(Mount(key, initialPage), run))
  {
    var view := View([], initialPage, 0, 0, 0, true, true, Some(initialPage), None, None, None);
    FetchKeeps(Hook(0, None, {}, view, key, map[], None, None, map[]), Some(initialPage as real), false, None);
    RunKeeps(Mount(key, initialPage), run);
  }

  // ---- what the hook promises ----

  /**
   On every schedule, an answer to anything but the last request (or to one that a clean-up has
   followed) changes nothing; the counter alone, or the abort signal alone, would tell it apart.
   */
  lemma SupersededAnswersChangeNothing(key: Key, initialPage: int, run: seq<Event>, id: nat, answer: Answer)
    requires id in After(Mount(key, initialPage), run).open
    ensures var h := After(Mount(key, initialPage), run);
            && (h.live != Some(id) ==> Answered(h, id, answer) == h.(open := h.open - {id}))
            && (h.live == Some(id) ==> Answered(h, id, answer).accepted == h.accepted[id := answer])
            && (id in h.aborted <==> h.live != Some(id)) && (id != h.requestId <==> h.live != Some(id))
  {
    MountKeeps(key, initialPage, run);
  }

  /**
   On every schedule: the view is loading exactly while the newest request has no accepted answer, and
   then names its page; once it is not, everything shown comes from the newest request's answer, under the current
   query key, and never from a page past the end.
   */
  lemma SettledViewIsTheNewest(key: Key, initialPage: int, run: seq<Event>)
    ensures var h := After(Mount(key, initialPage), run);
            && h.newest.Some?
            && (h.view.loading <==> h.newest.value.id !in h.accepted)
            && (h.view.loading ==>
                  h.view.loadingPage == Some(h.newest.value.target) && h.view.error == None && h.view.retryPage == None
                  && (h.view.initialLoading <==> h.view.items == []))
            && (!h.view.loading ==>
                  && h.view.resolvedQueryKey == Some(h.key)
                  && match h.accepted[h.newest.value.id]
                     case Loaded(result) =>
                       && h.view.error == None && h.view.items == result.items && h.view.page == result.page
                       && h.view.pageSize == result.pageSize && h.view.totalItems == result.totalItems
                       && h.view.totalPages == result.totalPages
                       && (result.items == [] ==>
                             h.newest.value.target == 1 || result.totalPages < 1 ||
                                 h.newest.value.target <= result.totalPages)
                     case Broken(message) =>
                       && h.view.error == Some(message) && h.view.retryPage == Some(h.newest.value.target)
                       && h.view.loadingPage == None && !h.view.initialLoading
                       && var before := h.newest.value.pending;
                          h.view.items == before.items && h.view.page == before.page &&
                          h.view.pageSize == before.pageSize && h.view.totalItems == before.totalItems &&
                          h.view.totalPages == before.totalPages)
  {
    MountKeeps(key, initialPage, run);
  }

  /**
   On every schedule and whatever the server answers, an accepted answer either settles the view or
   asks for a strictly smaller page, and a chain that began at page n is at most n - 1 steps long.
   */
  lemma FallbacksEnd(key: Key, initialPage: int, run: seq<Event>, id: nat, answer: Answer)
    requires id in After(Mount(key, initialPage), run).open
    requires After(Mount(key, initialPage), run).live == Some(id)
    ensures var h := After(Mount(key, initialPage), run);
            var asked, r := h.open[id], Answered(h, id, answer);
            && asked.depth + asked.target <= asked.origin
            && (r.view.loading ==>
                  && r.newest.Some? && 1 <= r.newest.value.target < asked.target
                  && r.newest.value.origin == asked.origin && r.newest.value.depth == asked.depth + 1)
  {
    MountKeeps(key, initialPage, run);
  }

  /** The first page, if `page` is not one. */
  function AtLeastOne(page: int): int { if page < 1 then 1 else page }

  /**
   A request for `page` and nothing else is new: it is the one waited for, and what is shown stays, marked as
   loading, until it is answered.
   */
  ghost predicate Asks(h: Hook, r: Hook, page: int) {
    && r.newest.Some? && r.newest.value.target == page && r.newest.value.id > h.requestId
    && r.newest.value.id in r.open && r.open[r.newest.value.id] == r.newest.value && r.live == Some(r.newest.value.id)
    && (forall id | id in r.open && id != r.newest.value.id ::
          id in h.open && r.open[id] == h.open[id] && id in r.aborted)
    && r.view == h.view.(initialLoading := h.view.items == [], loading := true, loadingPage := Some(page),
                         retryPage := None, error := None)
  }

  lemma FetchAsks(h: Hook, requested: Option<real>, from: Option<Request>)
    requires Ready(h)
    ensures requested.None? || requested.value < 1.0 ==> Asks(h, Fetch(h, requested, false, from), 1)
    ensures requested.Some? && requested.value >= 1.0 ==>
              Asks(h, Fetch(h, requested, false, from), requested.value.Floor)
  {
  }

  lemma IntAsks(h: Hook, page: int, from: Option<Request>)
    requires Ready(h)
    ensures Asks(h, Fetch(h, Some(page as real), false, from), AtLeastOne(page))
  {
    FetchAsks(h, Some(page as real), from);
    assert (page as real).Floor == page;
    hide Fetch, Asks, Ready;
  }

  /** On every schedule, going to a number asks for that page, fractions dropped, and to anything else for the first. */
  lemma GoToPageAsksForIt(key: Key, initialPage: int, run: seq<Event>, page: Option<real>) returns (n: int)
    ensures var h := After(Mount(key, initialPage), run); Asks(h, Apply(h, GoToPage(page)), n)
    ensures page.Some? && page.value >= 1.0 ==> n as real <= page.value < (n + 1) as real
    ensures page.None? || page.value < 1.0 ==> n == 1
  {
    MountKeeps(key, initialPage, run);
    var h := After(Mount(key, initialPage), run);
    InvIsReady(h, key);
    FetchAsks(h, page, None);
    n := if page.Some? && page.value >= 1.0 then page.value.Floor else 1;
    hide Fetch, Asks, Ready, Inv, After, Mount;
  }

  /**
   On every schedule: the next page is the shown one plus one, asked for exactly when there is one; the page
   before is the shown one minus one; a reload asks for the page that failed, or else for the shown one; and
   the effect asks for the initial page, under the new query key.
   */
  lemma ButtonsAskForTheirPage(key: Key, initialPage: int, run: seq<Event>, newKey: Key, newInitial: int)
    ensures var h := After(Mount(key, initialPage), run);
      && (h.view.page < h.view.totalPages ==> Asks(h, Apply(h, NextPage), AtLeastOne(h.view.page + 1)))
      && (h.view.page >= h.view.totalPages ==> Apply(h, NextPage) == h)
      && (h.view.page > 1 ==> Asks(h, Apply(h, PreviousPage), h.view.page - 1))
      && (h.view.page <= 1 ==> Apply(h, PreviousPage) == h)
      && (h.view.retryPage.Some? ==> Asks(h, Apply(h, Reload), AtLeastOne(h.view.retryPage.value)))
      && (h.view.retryPage.None? ==> Asks(h, Apply(h, Reload), AtLeastOne(h.view.page)))
      && Asks(h, Apply(h, RunEffect(newKey, newInitial)), AtLeastOne(newInitial))
      && Apply(h, RunEffect(newKey, newInitial)).key == newKey
      && Apply(h, RunEffect(newKey, newInitial)).newest.value.key == newKey
  {
    hide Inv, Asks, Apply, After, Mount;
    MountKeeps(key, initialPage, run);
    var h := After(Mount(key, initialPage), run);
    ButtonAsks(h);
    EffectAsks(h, newKey, newInitial);
  }

  lemma ButtonAsks(h: Hook)
    requires Inv(h)
    ensures h.view.page < h.view.totalPages ==> Asks(h, Apply(h, NextPage), AtLeastOne(h.view.page + 1))
    ensures h.view.page >= h.view.totalPages ==> Apply(h, NextPage) == h
    ensures h.view.page > 1 ==> Asks(h, Apply(h, PreviousPage), h.view.page - 1)
    ensures h.view.page <= 1 ==> Apply(h, PreviousPage) == h
    ensures h.view.retryPage.Some? ==> Asks(h, Apply(h, Reload), AtLeastOne(h.view.retryPage.value))
    ensures h.view.retryPage.None? ==> Asks(h, Apply(h, Reload), AtLeastOne(h.view.page))
  {
    InvIsReady(h, h.key);
    hide Fetch, Asks, Ready, Inv, Cleanup;
    IntAsks(h, h.view.page + 1, None);
    IntAsks(h, h.view.page - 1, None);
    IntAsks(h, ReloadTarget(h.view), None);
  }

  lemma EffectAsks(h: Hook, key: Key, initialPage: int)
    requires Inv(h)
    ensures var r := Apply(h, RunEffect(key, initialPage));
            Asks(h, r, AtLeastOne(initialPage)) && r.key == key && r.newest.Some? && r.newest.value.key == key
  {
    InvIsReady(h, key);
    hide Inv;
    IntAsks(Cleanup(h).(key := key), initialPage, None);
  }

  /** On every schedule, an empty answer from past the end asks for the last page there is, and is not shown. */
  lemma EmptyAnswersAskForTheLastPage(key: Key, initialPage: int, run: seq<Event>, id: nat, result: PageResult)
    requires id in After(Mount(key, initialPage), run).open
    requires After(Mount(key, initialPage), run).live == Some(id)
    requires result.items == [] && 1 <= result.totalPages < After(Mount(key, initialPage), run).open[id].target
    ensures var h := After(Mount(key, initialPage), run);
            Asks(h, Apply(h, Settle(id, Loaded(result))), result.totalPages)
  {
    MountKeeps(key, initialPage, run);
    NotedAsks(After(Mount(key, initialPage), run), id, result);
    hide Fetch, Asks, Inv, After, Mount;
  }

  lemma NotedAsks(h: Hook, id: nat, result: PageResult)
    requires Inv(h) && id in h.open && h.live == Some(id)
    requires result.items == [] && 1 <= result.totalPages < h.open[id].target
    ensures Asks(h, Apply(h, Settle(id, Loaded(result))), result.totalPages)
  {
    var noted := h.(open := h.open - {id}, accepted := h.accepted[id := Loaded(result)]);
    assert Ready(noted);
    IntAsks(noted, result.totalPages, Some(h.open[id]));
  }

  predicate OnlyAnswers(run: seq<Event>) {
    forall e | e in run :: e.Settle?
  }

  lemma {:induction false} NoLiveRequestNoChange(h: Hook, run: seq<Event>)
    requires Inv(h) && h.live.None? && OnlyAnswers(run)
    ensures After(h, run).view == h.view
    decreases |run|
  {
    if run != [] {
      var next := Apply(h, run[0]);
      StepKeeps(h, run[0]);
      assert run[0] in run && OnlyAnswers(run[1..]);
      NoLiveRequestNoChange(next, run[1..]);
    }
  }

  /** After the component goes, no answer to anything it asked for changes the state. */
  lemma UnmountedHookIsQuiet(key: Key, initialPage: int, before: seq<Event>, answers: seq<Event>)
    requires OnlyAnswers(answers)
    ensures var h := After(Mount(key, initialPage), before); After(Cleanup(h), answers).view == h.view
  {
    MountKeeps(key, initialPage, before);
    var h := After(Mount(key, initialPage), before);
    StepKeeps(h, Unmount);
    NoLiveRequestNoChange(Cleanup(h), answers);
  }

  // ---- the hook's refs ----

  class PagePaginationHook {
    var requestIdRef: nat
    var controllerRef: Option<nat>
    var aborted: set<nat>
    var stateRef: View
    var queryKeyRef: Key
    var open: map<nat, Request>
    ghost var newest: Option<Request>
    ghost var live: Option<nat>
    ghost var accepted: map<nat, Answer>

    ghost function Snapshot(): Hook
      reads this
    {
      Hook(requestIdRef, controllerRef, aborted, stateRef, queryKeyRef, open, newest, live, accepted)
    }

    constructor (queryKey: Key, initialPage: int)
      ensures Snapshot() == Mount(queryKey, initialPage)
    {
      requestIdRef, controllerRef, aborted, queryKeyRef, open := 0, None, {}, queryKey, map[];
      stateRef := View([], initialPage, 0, 0, 0, true, true, Some(initialPage), None, None, None);
      newest, live, accepted := None, None, map[];
      new;
      FetchPage(Some(initialPage as real), false, None);
    }

    method FetchPage(requestedPage: Option<real>, clearItems: bool, from: Option<Request>)
      modifies this
      ensures Snapshot() == Fetch(old(Snapshot()), requestedPage, clearItems, from)
    {
      hide TargetPage, PendingView, Trunc;
      var targetPage := TargetPage(requestedPage);
      requestIdRef := requestIdRef + 1;
      if controllerRef.Some? { aborted := aborted + {controllerRef.value}; }
      controllerRef := Some(requestIdRef);
      var previous := stateRef;
      var pendingState := PendingView(previous, targetPage, clearItems);
      stateRef := pendingState;
      var request := Request(requestIdRef, targetPage, queryKeyRef, pendingState,
                             if from.Some? then from.value.origin else targetPage,
                             if from.Some? then from.value.depth + 1 else 0);
      open := open[requestIdRef := request];
      newest, live := Some(request), Some(requestIdRef);
    }

    /** The rest of fetchPage, when its request is answered. */
    method Resume(id: nat, answer: Answer)
      requires id in open
      modifies this
      ensures Snapshot() == Apply(old(Snapshot()), Settle(id, answer))
    {
      var request := open[id];
      open := open - {id};
      if id in aborted || id != requestIdRef { return; }
      accepted := accepted[id := answer];
      match answer
      case Loaded(result) =>
        if result.items == [] && request.target > 1 && result.totalPages >= 1 && request.target > result.totalPages {
          FetchPage(Some(result.totalPages as real), false, Some(request));
        } else {
          stateRef := LoadedView(result, request.key);
        }
      case Broken(message) =>
        stateRef := BrokenView(request, message);
    }

    method CleanUp()
      modifies this
      ensures Snapshot() == Apply(old(Snapshot()), Unmount)
    {
      requestIdRef := requestIdRef + 1;
      if controllerRef.Some? { aborted := aborted + {controllerRef.value}; }
      live := None;
    }

    method RunEffects(queryKey: Key, initialPage: int)
      modifies this
      ensures Snapshot() == Apply(old(Snapshot()), RunEffect(queryKey, initialPage))
    {
      CleanUp();
      queryKeyRef := queryKey;
      FetchPage(Some(initialPage as real), false, None);
    }

    method ReloadPage()
      modifies this
      ensures Snapshot() == Apply(old(Snapshot()), Reload)
    {
      FetchPage(Some(ReloadTarget(stateRef) as real), false, None);
    }

    method GoToNextPage()
      modifies this
      ensures Snapshot() == Apply(old(Snapshot()), NextPage)
    {
      if stateRef.page < stateRef.totalPages { FetchPage(Some((stateRef.page + 1) as real), false, None); }
    }

    method GoToPreviousPage()
      modifies this
      ensures Snapshot() == Apply(old(Snapshot()), PreviousPage)
    {
      if stateRef.page > 1 { FetchPage(Some((stateRef.page - 1) as real), false, None); }
    }
  }
}
