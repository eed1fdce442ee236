/**
 Requests that share one quota service, interleaved between any two of their suspensions: what is held
 is always what the requests between acquire and release hold.
 */
module QuotaBalance {
  datatype Acquisition = Granted | OverQuota | Unusable
  datatype Ending = Returned | Raised

  /** Why a request is over, or about to be. */
  datatype End = Finished(ending: Ending) | OverWindow | NotAcquired(acquisition: Acquisition)

  /**
   Where a request is in the middleware: before acquire; checking the persistent window; in the
   application; on its way out with the release still to come (the handler's or the `finally`'s); over.
   */
  datatype Phase = Arrived | Checking | Running | Unwinding(end: End) | Ended(end: End)

  /** One request of the principal `id`. */
  datatype Call = Call(id: nat, phase: Phase)

  datatype QuotaEvent = Acquired(call: nat) | AppRan(call: nat) | Released(call: nat)

  datatype Pool = Pool(held: multiset<nat>, calls: seq<Call>, log: seq<QuotaEvent>)

  /** What one request does between two suspensions; `i` is its place among the calls. */
  datatype Event =
    | Arrive(id: nat)
    | Acquire(i: nat, acquisition: Acquisition)
    | CheckWindow(i: nat, over: bool)
    | EndApp(i: nat, ending: Ending)
    | Release(i: nat)

  predicate At(w: Pool, i: nat, phase: Phase) { i < |w.calls| && w.calls[i].phase == phase }

  function Move(w: Pool, i: nat, phase: Phase, e: seq<QuotaEvent>): Pool
    requires i < |w.calls|
  {
    w.(calls := w.calls[i := w.calls[i].(phase := phase)], log := w.log + e)
  }

  function Apply(w: Pool, e: Event): Pool {
    match e
    case Arrive(id) => w.(calls := w.calls + [Call(id, Arrived)])
    case Acquire(i, acquisition) =>
      if !At(w, i, Arrived) then w
      else if acquisition == Granted
      then Move(w, i, Checking, [Acquired(i)]).(held := w.held + multiset{w.calls[i].id})
      else Move(w, i, Ended(NotAcquired(acquisition)), [])
    case CheckWindow(i, over) =>
      if !At(w, i, Checking) then w
      else if over then Move(w, i, Unwinding(OverWindow), [])
      else Move(w, i, Running, [AppRan(i)])
    case EndApp(i, ending) => if !At(w, i, Running) then w else Move(w, i, Unwinding(Finished(ending)), [])
    case Release(i) =>
      if i < |w.calls| && w.calls[i].phase.Unwinding?
      then Move(w, i, Ended(w.calls[i].phase.end), [Released(i)]).(held := w.held - multiset{w.calls[i].id})
      else w
  }

  function Start(held: multiset<nat>): Pool { Pool(held, [], []) }

  function After(w: Pool, run: seq<Event>): Pool
    decreases |run|
  {
    if run == [] then w else After(Apply(w, run[0]), run[1..])
  }

  /** A run can be cut anywhere. */
  lemma {:induction false} AfterBoth(w: Pool, a: seq<Event>, b: seq<Event>)
    ensures After(w, a + b) == After(After(w, a), b)
    decreases |a|
  {
    if a == [] {
      assert a + b == b;
    } else {
      AfterBoth(Apply(w, a[0]), a[1..], b);
      assert (a + b)[1..] == a[1..] + b;
    }
  }

  lemma AfterOne(w: Pool, e: Event)
    ensures After(w, [e]) == Apply(w, e)
  {
    assert After(Apply(w, e), []) == Apply(w, e);
  }

  // ---- what is held ----

  /** Between acquire and release. */
  predicate Holding(c: Call) { c.phase.Checking? || c.phase.Running? || c.phase.Unwinding? }

  function One(c: Call, id: nat): nat { if Holding(c) && c.id == id then 1 else 0 }

  /** How many requests of the principal are between acquire and release. */
  function OpenFor(calls: seq<Call>, id: nat): nat {
    if calls == [] then 0 else One(calls[0], id) + OpenFor(calls[1..], id)
  }

  lemma {:induction false} OneMoreCall(calls: seq<Call>, c: Call, id: nat)
    ensures OpenFor(calls + [c], id) == OpenFor(calls, id) + One(c, id)
  {
    if calls != [] {
      assert (calls + [c])[1..] == calls[1..] + [c];
      OneMoreCall(calls[1..], c, id);
    }
  }

  lemma {:induction false} OneCallMoves(calls: seq<Call>, i: nat, c: Call, id: nat)
    requires i < |calls|
    ensures OpenFor(calls[i := c], id) - One(c, id) == OpenFor(calls, id) - One(calls[i], id) >= 0
  {
    if i == 0 {
      assert calls[0 := c][1..] == calls[1..];
    } else {
      assert calls[i := c][1..] == calls[1..][i - 1 := c];
      OneCallMoves(calls[1..], i - 1, c, id);
    }
  }

  /** Held is what was held at first, and one for every open request. */
  ghost predicate Balanced(w: Pool, initial: multiset<nat>) {
    forall id: nat :: w.held[id] == initial[id] + OpenFor(w.calls, id)
  }

  /** What is held changes with the phase of the one request that moves. */
  lemma OneCallHolds(w: Pool, e: Event, id: nat)
    requires !e.Arrive? && Apply(w, e) != w
    requires e.i < |w.calls| ==> w.held[id] >= One(w.calls[e.i], id)
    ensures var r := Apply(w, e);
            && e.i < |w.calls| && r.calls == w.calls[e.i := r.calls[e.i]]
            && r.held[id] - One(r.calls[e.i], id) == w.held[id] - One(w.calls[e.i], id)
  {
    if e.Release? { assert w.held[id] >= One(w.calls[e.i], id); }
  }

  lemma StepBalances(w: Pool, e: Event, initial: multiset<nat>)
    requires Balanced(w, initial)
    ensures Balanced(Apply(w, e), initial)
  {
    hide OpenFor, Apply, One;
    var r := Apply(w, e);
    if e.Arrive? {
      ArrivalBalances(w, e.id, initial);
    } else if r != w {
      forall id: nat ensures r.held[id] == initial[id] + OpenFor(r.calls, id) {
        if e.i < |w.calls| { OneCallMoves(w.calls, e.i, w.calls[e.i], id); }
        OneCallHolds(w, e, id);
        OneCallMoves(w.calls, e.i, r.calls[e.i], id);
      }
    }
  }

  lemma ArrivalBalances(w: Pool, id: nat, initial: multiset<nat>)
    requires Balanced(w, initial)
    ensures Balanced(Apply(w, Arrive(id)), initial)
  {
    hide OpenFor;
    forall x: nat { OneMoreCall(w.calls, Call(id, Arrived), x); }
  }

  lemma {:induction false} NobodyHolds(calls: seq<Call>, id: nat)
    requires forall c | c in calls :: c.phase.Ended?
    ensures OpenFor(calls, id) == 0
  {
    if calls != [] { NobodyHolds(calls[1..], id); }
  }

  lemma {:induction false} RunBalances(w: Pool, run: seq<Event>, initial: multiset<nat>)
    requires Balanced(w, initial)
    ensures Balanced(After(w, run), initial)
    decreases |run|
  {
    hide Balanced;
    if run != [] {
      StepBalances(w, run[0], initial);
      RunBalances(Apply(w, run[0]), run[1..], initial);
    }
  }

  /**
   Over every interleaving of any number of requests, whatever the service answers and however the
   applications end: each principal holds what it held at first and one for every request of its between
   acquire and release; once all have ended, what is held is what was held at first.
   */
  lemma HeldIsWhatOpenRequestsHold(initial: multiset<nat>, run: seq<Event>)
    ensures var w := After(Start(initial), run);
            && (forall id: nat :: w.held[id] == initial[id] + OpenFor(w.calls, id))
            && ((forall c | c in w.calls :: c.phase.Ended?) ==> w.held == initial)
  {
    var w := After(Start(initial), run);
    RunBalances(Start(initial), run, initial);
    if forall c | c in w.calls :: c.phase.Ended? {
      forall id: nat ensures w.held[id] == initial[id] { NobodyHolds(w.calls, id); }
    }
  }

  // ---- what one request did ----

  /** The events of one request, in order. */
  function Only(log: seq<QuotaEvent>, i: nat): seq<QuotaEvent> {
    if log == [] then []
    else Only(log[..|log| - 1], i) + if log[|log| - 1].call == i then [log[|log| - 1]] else []
  }

  /** All that a request has done by the time it is in a phase. */
  function TraceAt(phase: Phase, i: nat): seq<QuotaEvent> {
    match phase
    case Arrived => []
    case Checking => [Acquired(i)]
    case Running => [Acquired(i), AppRan(i)]
    case Unwinding(end) => TraceBefore(end, i)
    case Ended(end) => TraceBefore(end, i) + if end.NotAcquired? then [] else [Released(i)]
  }

  function TraceBefore(end: End, i: nat): seq<QuotaEvent> {
    match end
    case Finished(_) => [Acquired(i), AppRan(i)]
    case OverWindow => [Acquired(i)]
    case NotAcquired(_) => []
  }

  ghost predicate Traced(w: Pool) {
    && (forall e | e in w.log :: e.call < |w.calls|)
    && (forall i: nat | i < |w.calls| :: Only(w.log, i) == TraceAt(w.calls[i].phase, i)
                                         && (w.calls[i].phase.Unwinding? ==> !w.calls[i].phase.end.NotAcquired?))
  }

  lemma OnlyOneMore(log: seq<QuotaEvent>, e: QuotaEvent, i: nat)
    ensures Only(log + [e], i) == Only(log, i) + if e.call == i then [e] else []
  {
    assert (log + [e])[..|log|] == log;
  }

  lemma {:induction false} NothingOf(log: seq<QuotaEvent>, i: nat)
    requires forall e | e in log :: e.call != i
    ensures Only(log, i) == []
  {
    if log != [] { NothingOf(log[..|log| - 1], i); }
  }

  /** A request moves on alone, and logs what its new phase has done more than its old one. */
  lemma OneCallLogs(w: Pool, e: Event) returns (more: seq<QuotaEvent>)
    requires !e.Arrive? && Apply(w, e) != w
    requires e.i < |w.calls| && w.calls[e.i].phase.Unwinding? ==> !w.calls[e.i].phase.end.NotAcquired?
    ensures var r := Apply(w, e);
            && e.i < |w.calls| && r.calls == w.calls[e.i := r.calls[e.i]]
            && r.log == w.log + more && (more == [] || (|more| == 1 && more[0].call == e.i))
            && TraceAt(r.calls[e.i].phase, e.i) == TraceAt(w.calls[e.i].phase, e.i) + more
            && (r.calls[e.i].phase.Unwinding? ==> !r.calls[e.i].phase.end.NotAcquired?)
  {
    var i := e.i;
    match e
    case Acquire(_, acquisition) => more := if acquisition == Granted then [Acquired(i)] else [];
    case CheckWindow(_, over) => more := if over then [] else [AppRan(i)];
    case EndApp(_, _) => more := [];
    case Release(_) => more := [Released(i)];
  }

  lemma StepTraces(w: Pool, e: Event)
    requires Traced(w)
    ensures Traced(Apply(w, e))
  {
    hide Only, TraceAt;
    var r := Apply(w, e);
    if e.Arrive? {
      NothingOf(w.log, |w.calls|);
      assert TraceAt(Arrived, |w.calls|) == Only(w.log, |w.calls|) by { NothingYet(|w.calls|); }
    } else if r != w {
      var more := OneCallLogs(w, e);
      hide Apply;
      forall i: nat | i < |r.calls| ensures Only(r.log, i) == TraceAt(r.calls[i].phase, i) {
        if more == [] {
          assert r.log == w.log && TraceAt(w.calls[e.i].phase, e.i) + more == TraceAt(w.calls[e.i].phase, e.i);
        } else {
          assert more == [more[0]];
          OnlyOneMore(w.log, more[0], i);
        }
      }
    }
  }

  lemma NothingYet(i: nat)
    ensures TraceAt(Arrived, i) == []
  {
  }

  lemma {:induction false} RunTraces(w: Pool, run: seq<Event>)
    requires Traced(w)
    ensures Traced(After(w, run))
    decreases |run|
  {
    if run != [] {
      StepTraces(w, run[0]);
      RunTraces(Apply(w, run[0]), run[1..]);
    }
  }

  /**
   Over every interleaving: a request that is over released exactly what it acquired, once, and after its
   application if that ran, whether it returned or raised.
   */
  lemma EveryAcquisitionIsReleasedOnce(initial: multiset<nat>, run: seq<Event>, i: nat)
    requires i < |After(Start(initial), run).calls| && After(Start(initial), run).calls[i].phase.Ended?
    ensures var w := After(Start(initial), run);
            Only(w.log, i) == match w.calls[i].phase.end
                              case Finished(_) => [Acquired(i), AppRan(i), Released(i)]
                              case OverWindow => [Acquired(i), Released(i)]
                              case NotAcquired(_) => []
  {
    RunTraces(Start(initial), run);
  }

  lemma FiveSteps(w: Pool, a: Event, b: Event, c: Event, d: Event, e: Event)
    ensures After(w, [a, b, c, d, e]) == Apply(Apply(Apply(Apply(Apply(w, a), b), c), d), e)
  {
    hide Apply;
    var w1 := Apply(w, a);
    var w2 := Apply(w1, b);
    var w3 := Apply(w2, c);
    var w4 := Apply(w3, d);
    AfterOne(w4, e);
    assert After(w3, [d, e]) == Apply(w4, e);
    assert After(w2, [c, d, e]) == Apply(w4, e);
    assert After(w1, [b, c, d, e]) == Apply(w4, e);
  }

  /** The last call alone moves on. */
  lemma LastMoves(w: Pool, before: seq<Call>, c: Call, phase: Phase, more: seq<QuotaEvent>)
    requires w.calls == before + [c]
    ensures Move(w, |before|, phase, more) == Pool(w.held, before + [Call(c.id, phase)], w.log + more)
  {
  }

  lemma LastAcquires(w: Pool, before: seq<Call>, id: nat)
    requires w.calls == before + [Call(id, Arrived)]
    ensures Apply(w, Acquire(|before|, Granted)) ==
            Pool(w.held + multiset{id}, before + [Call(id, Checking)], w.log + [Acquired(|before|)])
  {
    LastMoves(w, before, Call(id, Arrived), Checking, [Acquired(|before|)]);
    hide Move;
  }

  lemma LastIsChecked(w: Pool, before: seq<Call>, id: nat, over: bool)
    requires w.calls == before + [Call(id, Checking)]
    ensures Apply(w, CheckWindow(|before|, over)) ==
            if over then Pool(w.held, before + [Call(id, Unwinding(OverWindow))], w.log)
            else Pool(w.held, before + [Call(id, Running)], w.log + [AppRan(|before|)])
  {
    LastMoves(w, before, Call(id, Checking), Unwinding(OverWindow), []);
    LastMoves(w, before, Call(id, Checking), Running, [AppRan(|before|)]);
    assert w.log + [] == w.log;
    hide Move;
  }

  lemma LastEnds(w: Pool, before: seq<Call>, id: nat, phase: Phase, ending: Ending)
    requires w.calls == before + [Call(id, phase)]
    ensures Apply(w, EndApp(|before|, ending)) ==
            if phase == Running then Pool(w.held, before + [Call(id, Unwinding(Finished(ending)))], w.log) else w
  {
    LastMoves(w, before, Call(id, phase), Unwinding(Finished(ending)), []);
    assert w.log + [] == w.log;
    hide Move;
  }

  lemma LastReleases(w: Pool, before: seq<Call>, id: nat, end: End)
    requires w.calls == before + [Call(id, Unwinding(end))]
    ensures Apply(w, Release(|before|)) ==
            Pool(w.held - multiset{id}, before + [Call(id, Ended(end))], w.log + [Released(|before|)])
  {
    LastMoves(w, before, Call(id, Unwinding(end)), Ended(end), [Released(|before|)]);
    hide Move;
  }

  /** From its acquisition to its end, a request that is granted. */
  lemma GrantedToTheEnd(w: Pool, before: seq<Call>, id: nat, over: bool, ending: Ending)
    requires w.calls == before + [Call(id, Arrived)]
    ensures var i := |before|;
            var r := Apply(Apply(Apply(Apply(w, Acquire(i, Granted)), CheckWindow(i, over)), EndApp(i, ending)),
                           Release(i));
      && r.held == w.held && r.calls == before + [Call(id, Ended(if over then OverWindow else Finished(ending)))]
      && r.log == w.log + if over then [Acquired(i), Released(i)] else [Acquired(i), AppRan(i), Released(i)]
  {
    hide Apply;
    var i := |before|;
    var w2 := Apply(w, Acquire(i, Granted));
    var w3 := Apply(w2, CheckWindow(i, over));
    var w4 := Apply(w3, EndApp(i, ending));
    LastAcquires(w, before, id);
    LastIsChecked(w2, before, id, over);
    LastEnds(w3, before, id, if over then Unwinding(OverWindow) else Running, ending);
    LastReleases(w4, before, id, if over then OverWindow else Finished(ending));
    assert (w.held + multiset{id}) - multiset{id} == w.held;
  }

  lemma NotGrantedToTheEnd(w: Pool, before: seq<Call>, id: nat, acquisition: Acquisition, over: bool, ending: Ending)
    requires w.calls == before + [Call(id, Arrived)] && acquisition != Granted
    ensures var i := |before|;
            Apply(Apply(Apply(Apply(w, Acquire(i, acquisition)), CheckWindow(i, over)), EndApp(i, ending)),
                  Release(i)) ==
            w.(calls := before + [Call(id, Ended(NotAcquired(acquisition)))])
  {
    LastMoves(w, before, Call(id, Arrived), Ended(NotAcquired(acquisition)), []);
    assert w.log + [] == w.log;
  }

  /**
   From any state, a request that is granted runs its application exactly when its window is not exceeded,
   and in the end what is held and the other requests are as they were; one that is not granted does nothing.
   */
  lemma GrantedRequestsRun(w: Pool, id: nat, acquisition: Acquisition, over: bool, ending: Ending)
    ensures var i := |w.calls|;
            var r := After(w, [Arrive(id), Acquire(i, acquisition), CheckWindow(i, over), EndApp(i, ending),
                               Release(i)]);
            var end := if acquisition != Granted then NotAcquired(acquisition)
                       else if over then OverWindow else Finished(ending);
      && r.held == w.held && r.calls == w.calls + [Call(id, Ended(end))]
      && r.log == w.log + if acquisition != Granted then []
                          else if over then [Acquired(i), Released(i)] else [Acquired(i), AppRan(i), Released(i)]
  {
    var i, w1 := |w.calls|, Apply(w, Arrive(id));
    assert w1 == w.(calls := w.calls + [Call(id, Arrived)]);
    hide Apply, After;
    FiveSteps(w, Arrive(id), Acquire(i, acquisition), CheckWindow(i, over), EndApp(i, ending), Release(i));
    if acquisition == Granted {
      GrantedToTheEnd(w1, w.calls, id, over, ending);
    } else {
      NotGrantedToTheEnd(w1, w.calls, id, acquisition, over, ending);
      assert w.log + [] == w.log;
    }
  }

  // ---- the service ----

  class QuotaService {
    var held: multiset<nat>
    ghost const initial: multiset<nat>
    ghost var calls: seq<Call>
    ghost var log: seq<QuotaEvent>

    ghost function Snapshot(): Pool
      reads this
    {
      Pool(held, calls, log)
    }

    ghost predicate Valid()
      reads this
    {
      Balanced(Snapshot(), initial)
    }

    constructor (held: multiset<nat>)
      ensures Snapshot() == Start(held) && initial == held && Valid()
    {
      this.held, initial, calls, log := held, held, [], [];
    }

    ghost method Enter(id: nat) returns (i: nat)
      requires Valid()
      modifies this
      ensures Valid() && i == |old(calls)| && Snapshot() == Apply(old(Snapshot()), Arrive(id))
      ensures held == old(held)
    {
      StepBalances(Snapshot(), Arrive(id), initial);
      i := |calls|;
      calls := calls + [Call(id, Arrived)];
    }

    method AcquireFor(id: nat, acquisition: Acquisition, ghost i: nat) returns (ok: bool)
      requires Valid() && At(Snapshot(), i, Arrived) && calls[i].id == id
      modifies this
      ensures Valid() && ok == (acquisition == Granted)
      ensures Snapshot() == Apply(old(Snapshot()), Acquire(i, acquisition))
    {
      StepBalances(Snapshot(), Acquire(i, acquisition), initial);
      hide Balanced;
      ghost var r := Apply(Snapshot(), Acquire(i, acquisition));
      ok := acquisition == Granted;
      if ok { held := held + multiset{id}; }
      calls, log := r.calls, r.log;
    }

    ghost method NoteWindow(i: nat, over: bool)
      requires Valid() && At(Snapshot(), i, Checking)
      modifies this
      ensures Valid() && Snapshot() == Apply(old(Snapshot()), CheckWindow(i, over))
    {
      StepBalances(Snapshot(), CheckWindow(i, over), initial);
      var r := Apply(Snapshot(), CheckWindow(i, over));
      calls, log := r.calls, r.log;
    }

    ghost method NoteEnd(i: nat, ending: Ending)
      requires Valid() && At(Snapshot(), i, Running)
      modifies this
      ensures Valid() && Snapshot() == Apply(old(Snapshot()), EndApp(i, ending))
    {
      StepBalances(Snapshot(), EndApp(i, ending), initial);
      var r := Apply(Snapshot(), EndApp(i, ending));
      calls, log := r.calls, r.log;
    }

    method ReleaseFor(id: nat, ghost i: nat)
      requires Valid() && i < |calls| && calls[i].phase.Unwinding? && calls[i].id == id
      modifies this
      ensures Valid() && Snapshot() == Apply(old(Snapshot()), Release(i))
    {
      StepBalances(Snapshot(), Release(i), initial);
      hide Balanced;
      ghost var r := Apply(Snapshot(), Release(i));
      held := held - multiset{id};
      calls, log := r.calls, r.log;
    }
  }
}
