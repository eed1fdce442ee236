/**
 The body-limit and quota middlewares, one inside the other: each reads the request ahead of the
 application and then replays it.
 */
module RequestReplay {
  import opened Wrappers
  import opened QuotaBalance

  type Byte = b: int | 0 <= b < 256

  const SNIFF_LIMIT: nat := 65536

  /** An ASGI message; Other is any kind that neither middleware knows. */
  datatype Message = Chunk(body: seq<Byte>, more: bool) | Disconnect | Other(kind: string)

  /** The message after which a middleware stops reading ahead. */
  predicate Final(m: Message) { m.Disconnect? || (m.Chunk? && !m.more) }

  predicate NoneFinal(messages: seq<Message>) { forall m | m in messages :: !Final(m) }

  /** The messages up to and including the first final one, or all of them if there is none. */
  function UpToFinal(stream: seq<Message>): seq<Message> {
    if stream == [] then [] else if Final(stream[0]) then [stream[0]] else [stream[0]] + UpToFinal(stream[1..])
  }

  function BytesOf(m: Message): seq<Byte> { if m.Chunk? then m.body else [] }

  function Body(messages: seq<Message>): seq<Byte> {
    if messages == [] then [] else BytesOf(messages[0]) + Body(messages[1..])
  }

  function Prefix(bytes: seq<Byte>, n: nat): seq<Byte> { if |bytes| <= n then bytes else bytes[..n] }

  lemma Regrouped(before: seq<Message>, m: Message, rest: seq<Message>)
    ensures before + ([m] + rest) == before + [m] + rest
  {
  }

  lemma {:induction false} BodyAppend(a: seq<Message>, m: Message)
    ensures Body(a + [m]) == Body(a) + BytesOf(m)
  {
    if a != [] {
      assert (a + [m])[1..] == a[1..] + [m];
      BodyAppend(a[1..], m);
    }
  }

  /** Reading stops exactly at the first final message. */
  lemma {:induction false} StopsAtFinal(before: seq<Message>, m: Message, rest: seq<Message>)
    requires NoneFinal(before) && Final(m)
    ensures UpToFinal(before + [m] + rest) == before + [m] && !NoneFinal(before + [m] + rest)
    ensures Disconnect in before + [m] <==> m == Disconnect
  {
    var stream := before + [m] + rest;
    assert m in stream;
    if before != [] {
      assert stream[0] == before[0] && stream[1..] == before[1..] + [m] + rest;
      StopsAtFinal(before[1..], m, rest);
    }
  }

  /**
   A request ends at the first chunk that announces no more, or at a disconnect, and messages of any other
   kind are passed over; without either it never ends.
   */
  lemma RequestEndsAt(before: seq<Message>, m: Message, rest: seq<Message>)
    requires forall x | x in before :: x.Other? || (x.Chunk? && x.more)
    ensures m == Disconnect || (m.Chunk? && !m.more) ==>
              UpToFinal(before + [m] + rest) == before + [m] && !NoneFinal(before + [m] + rest)
    ensures NoneFinal(before) && UpToFinal(before) == before
  {
    if Final(m) { StopsAtFinal(before, m, rest); }
    NoFinalTakesAll(before);
  }

  lemma NotFinalYet(before: seq<Message>, m: Message)
    requires NoneFinal(before) && !Final(m)
    ensures NoneFinal(before + [m])
  {
  }

  lemma {:induction false} NoFinalTakesAll(stream: seq<Message>)
    requires NoneFinal(stream)
    ensures UpToFinal(stream) == stream
  {
    if stream != [] { NoFinalTakesAll(stream[1..]); }
  }

  lemma {:induction false} BodyGrows(before: seq<Message>, rest: seq<Message>)
    requires NoneFinal(before)
    ensures |Body(UpToFinal(before + rest))| >= |Body(before)|
  {
    if before != [] {
      assert (before + rest)[1..] == before[1..] + rest;
      BodyGrows(before[1..], rest);
    }
  }

  /** Cutting each chunk to the room that is left keeps exactly the first bytes of the body. */
  lemma SniffedSoFar(body: seq<Byte>, chunk: seq<Byte>)
    ensures |Prefix(body, SNIFF_LIMIT)| <= SNIFF_LIMIT
    ensures Prefix(body + chunk, SNIFF_LIMIT) ==
            Prefix(body, SNIFF_LIMIT) + Prefix(chunk, SNIFF_LIMIT - |Prefix(body, SNIFF_LIMIT)|)
  {
  }

  // ---- the three receivers ----

  /** The server's `receive`: None stands for a wait that never ends. */
  class Server {
    var incoming: seq<Message>

    constructor (incoming: seq<Message>)
      ensures this.incoming == incoming
    {
      this.incoming := incoming;
    }

    method Receive() returns (m: Option<Message>)
      modifies this
      ensures old(incoming) == [] ==> m == None && incoming == []
      ensures old(incoming) != [] ==> m == Some(old(incoming)[0]) && incoming == old(incoming)[1..]
    {
      if incoming == [] { return None; }
      m := Some(incoming[0]);
      incoming := incoming[1..];
    }
  }

  /** The `replay` of the body-limit middleware. */
  class LimitReplay {
    const server: Server
    const messages: seq<Message>
    var index: nat

    ghost predicate Valid()
      reads this
    {
      index <= |messages|
    }

    /** Everything this receiver has yet to deliver. */
    ghost function Remaining(): seq<Message>
      reads this, server
      requires Valid()
    {
      messages[index..] + server.incoming
    }

    constructor (server: Server, messages: seq<Message>)
      ensures Valid() && this.server == server && this.messages == messages && index == 0
    {
      this.server, this.messages, index := server, messages, 0;
    }

    method Receive() returns (m: Option<Message>)
      requires Valid()
      modifies this, server
      ensures Valid()
      ensures old(Remaining()) == [] ==> m == None && Remaining() == []
      ensures old(Remaining()) != [] ==> m.Some? && old(Remaining()) == [m.value] + Remaining()
      ensures old(index) < |messages| ==> server.incoming == old(server.incoming) && index == old(index) + 1
    {
      if index >= |messages| {
        m := server.Receive();
        return;
      }
      m := Some(messages[index]);
      index := index + 1;
    }
  }

  /** The `replay` of the quota middleware; without messages it is the receiver it was given. */
  class QuotaReplay {
    const upstream: LimitReplay
    const messages: seq<Message>
    var index: nat

    ghost predicate Valid()
      reads this, upstream
    {
      index <= |messages| && upstream.Valid()
    }

    ghost function Remaining(): seq<Message>
      reads this, upstream, upstream.server
      requires Valid()
    {
      messages[index..] + upstream.Remaining()
    }

    constructor (upstream: LimitReplay, messages: seq<Message>)
      requires upstream.Valid()
      ensures Valid() && this.upstream == upstream && this.messages == messages && index == 0
    {
      this.upstream, this.messages, index := upstream, messages, 0;
    }

    method Receive() returns (m: Option<Message>)
      requires Valid()
      modifies this, upstream, upstream.server
      ensures Valid()
      ensures old(Remaining()) == [] ==> m == None && Remaining() == []
      ensures old(Remaining()) != [] ==> m.Some? && old(Remaining()) == [m.value] + Remaining()
    {
      if index >= |messages| {
        m := upstream.Receive();
        return;
      }
      m := Some(messages[index]);
      index := index + 1;
    }
  }

  // ---- the body limit ----

  datatype ReadAhead = Complete | TooLarge | Waiting

  /** What reading ahead comes to, from the whole stream: by size of the request, not message by message. */
  ghost function LimitVerdict(stream: seq<Message>, maxBody: nat): ReadAhead {
    if |Body(UpToFinal(stream))| > maxBody then TooLarge
    else if NoneFinal(stream) then Waiting
    else Complete
  }

  /** The loop of RequestBodyLimitMiddleware. */
  method BufferWithinLimit(server: Server, maxBody: nat) returns (outcome: ReadAhead, messages: seq<Message>)
    modifies server
    ensures outcome == LimitVerdict(old(server.incoming), maxBody)
    ensures messages + server.incoming == old(server.incoming)
    ensures outcome == Complete ==> messages == UpToFinal(old(server.incoming))
  {
    ghost var stream := server.incoming;
    messages := [];
    var received := 0;
    while true
      invariant messages + server.incoming == stream && NoneFinal(messages)
      invariant received == |Body(messages)| <= maxBody
      decreases |server.incoming|
    {
      ghost var before, rest := messages, server.incoming;
      var next := server.Receive();
      if next.None? {
        assert messages == stream;
        NoFinalTakesAll(stream);
        return Waiting, messages;
      }
      var m := next.value;
      messages := messages + [m];
      BodyAppend(before, m);
      assert rest == [m] + server.incoming;
      Regrouped(before, m, server.incoming);
      if m.Chunk? {
        received := received + |m.body|;
        if received > maxBody {
          if m.more { BodyGrows(messages, server.incoming); } else { StopsAtFinal(before, m, server.incoming); }
          return TooLarge, messages;
        }
      }
      if Final(m) {
        StopsAtFinal(before, m, server.incoming);
        return Complete, messages;
      }
    }
  }

  // ---- the quota's look at the body ----

  /** The loop of _request_space. */
  method SniffAhead(upstream: LimitReplay)
    returns (outcome: ReadAhead, messages: seq<Message>, sniffed: seq<Byte>, disconnected: bool)
    requires upstream.Valid()
    modifies upstream, upstream.server
    ensures upstream.Valid()
    ensures outcome == (if NoneFinal(old(upstream.Remaining())) then Waiting else Complete)
    ensures messages + upstream.Remaining() == old(upstream.Remaining())
    ensures outcome == Complete ==> messages == UpToFinal(old(upstream.Remaining()))
    ensures outcome == Complete ==> sniffed == Prefix(Body(UpToFinal(old(upstream.Remaining()))), 65536)
    ensures outcome == Complete ==> (disconnected <==> Disconnect in UpToFinal(old(upstream.Remaining())))
  {
    hide UpToFinal;
    ghost var stream := upstream.Remaining();
    messages, sniffed, disconnected := [], [], false;
    assert Prefix(Body([]), SNIFF_LIMIT) == [];
    hide Body, Prefix, NoneFinal;
    while true
      invariant upstream.Valid()
      invariant messages + upstream.Remaining() == stream && NoneFinal(messages)
      invariant sniffed == Prefix(Body(messages), SNIFF_LIMIT) && !disconnected
      decreases |upstream.Remaining()|
    {
      ghost var before := messages;
      var next := upstream.Receive();
      if next.None? {
        assert messages == stream;
        return Waiting, messages, sniffed, false;
      }
      var m := next.value;
      messages := messages + [m];
      BodyAppend(before, m);
      Regrouped(before, m, upstream.Remaining());
      if m.Disconnect? {
        disconnected := true;
      } else if m.Chunk? {
        SniffedSoFar(Body(before), m.body);
        if |sniffed| < SNIFF_LIMIT {
          sniffed := sniffed + Prefix(m.body, SNIFF_LIMIT - |sniffed|);
        }
      }
      assert sniffed == Prefix(Body(messages), SNIFF_LIMIT);
      if Final(m) {
        StopsAtFinal(before, m, upstream.Remaining());
        return Complete, messages, sniffed, disconnected;
      }
      NotFinalYet(before, m);
    }
  }

  // ---- the application ----

  /** An application: how often it asks for a message, and after how many of those it raises, if it does. */
  datatype App = App(asks: nat, raisesAfter: Option<nat>)

  /** How a run of it ends: it returns or raises, or it waits for a message that never comes. */
  datatype AppEnd = Over(ending: Ending) | Stuck

  predicate Raises(app: App) { app.raisesAfter.Some? && app.raisesAfter.value <= app.asks }

  /** What an application gets out of a stream, and how it ends. */
  function AppOn(stream: seq<Message>, app: App): (seq<Message>, AppEnd) {
    var wanted := if Raises(app) then app.raisesAfter.value else app.asks;
    if |stream| < wanted then (stream, Stuck)
    else (stream[..wanted], Over(if Raises(app) then Raised else Returned))
  }

  method RunApp(receive: QuotaReplay, app: App) returns (got: seq<Message>, end: AppEnd)
    requires receive.Valid()
    modifies receive, receive.upstream, receive.upstream.server
    ensures receive.Valid()
    ensures (got, end) == AppOn(old(receive.Remaining()), app)
  {
    ghost var stream := receive.Remaining();
    got := [];
    while |got| < app.asks
      invariant receive.Valid()
      invariant got + receive.Remaining() == stream
      invariant |got| <= app.asks && (Raises(app) ==> |got| <= app.raisesAfter.value)
      decreases app.asks - |got|
    {
      if app.raisesAfter == Some(|got|) { return got, Over(Raised); }
      ghost var before := got;
      var m := receive.Receive();
      if m.None? {
        assert got == stream;
        return got, Stuck;
      }
      got := got + [m.value];
      Regrouped(before, m.value, receive.Remaining());
    }
    end := Over(if app.raisesAfter == Some(app.asks) then Raised else Returned);
  }

  /**
   An application gets the first messages of the stream: as many as it asks for before it raises or
   returns, or all of them if it asks for more, and then it waits.
   */
  lemma AppGetsAPrefix(stream: seq<Message>, app: App)
    ensures var (got, end) := AppOn(stream, app);
      && got <= stream
      && (end.Stuck? <==> |stream| < app.asks && (app.raisesAfter.Some? ==> |stream| < app.raisesAfter.value))
      && (end.Stuck? ==> got == stream)
      && (end == Over(Returned) ==> |got| == app.asks && (app.raisesAfter.Some? ==> app.asks < app.raisesAfter.value))
      && (end == Over(Raised) ==> app.raisesAfter == Some(|got|) && |got| <= app.asks)
  {
  }

  // ---- quotas ----

  datatype Principal = Principal(id: nat, active: bool)
  datatype WindowCheck = Within | Exceeded | Unavailable

  /** How a request is answered; AppRaised is an exception that goes on to the caller. */
  datatype Answer =
    | AppReturned(got: seq<Message>)
    | AppRaised(got: seq<Message>)
    | AppWaits(got: seq<Message>)
    | BodyTooLarge
    | QuotaExceeded
    | ServiceFailed
    | NeverAnswered

  function AppAnswer(got: seq<Message>, end: AppEnd): Answer {
    match end
    case Stuck => AppWaits(got)
    case Over(ending) => if ending == Raised then AppRaised(got) else AppReturned(got)
  }

  /** The end of a request: nothing while its application is stuck, else the release of its `finally`. */
  function EndRun(i: nat, end: AppEnd): seq<Event> {
    if end.Stuck? then [] else [EndApp(i, end.ending)] + [Release(i)]
  }

  function WindowRun(i: nat, over: bool, end: AppEnd): seq<Event> {
    [CheckWindow(i, over)] + if over then [Release(i)] else EndRun(i, end)
  }

  /** What one request under quota does to the service, from its arrival as call `i` of it. */
  function QuotaRun(i: nat, id: nat, acquisition: Acquisition, over: bool, end: AppEnd): seq<Event> {
    [Arrive(id)] + ([Acquire(i, acquisition)] + if acquisition == Granted then WindowRun(i, over, end) else [])
  }

  /** The application and the `finally` of QuotaMiddleware.__call__. */
  method RunAndRelease(receive: QuotaReplay, id: nat, app: App, service: QuotaService, ghost i: nat)
    returns (answer: Answer)
    requires receive.Valid() && service.Valid() && At(service.Snapshot(), i, Running) && service.calls[i].id == id
    modifies receive, receive.upstream, receive.upstream.server, service
    ensures service.Valid()
    ensures var (got, end) := AppOn(old(receive.Remaining()), app);
            service.Snapshot() == After(old(service.Snapshot()), EndRun(i, end)) && answer == AppAnswer(got, end)
  {
    hide Apply, AppOn;
    ghost var start := service.Snapshot();
    var got, end := RunApp(receive, app);
    if end.Stuck? { return AppWaits(got); }
    service.NoteEnd(i, end.ending);
    AfterEnd(start, i, end.ending);
    AfterOne(start, EndApp(i, end.ending));
    ghost var unwinding := service.Snapshot();
    service.ReleaseFor(id, i);
    AfterOne(unwinding, Release(i));
    AfterBoth(start, [EndApp(i, end.ending)], [Release(i)]);
    return if end.ending == Raised then AppRaised(got) else AppReturned(got);
  }

  /** The check of the persistent window, whose handler also releases, and what follows it. */
  method CheckAndRun(receive: QuotaReplay, id: nat, over: bool, app: App, service: QuotaService, ghost i: nat)
    returns (answer: Answer)
    requires receive.Valid() && service.Valid() && At(service.Snapshot(), i, Checking) && service.calls[i].id == id
    modifies receive, receive.upstream, receive.upstream.server, service
    ensures service.Valid()
    ensures var (got, end) := AppOn(old(receive.Remaining()), app);
            && service.Snapshot() == After(old(service.Snapshot()), WindowRun(i, over, end))
            && answer == if over then QuotaExceeded else AppAnswer(got, end)
  {
    hide Apply, AppOn, EndRun, AppAnswer;
    ghost var start := service.Snapshot();
    ghost var end := AppOn(receive.Remaining(), app).1;
    service.NoteWindow(i, over);
    AfterWindow(start, i, over);
    AfterOne(start, CheckWindow(i, over));
    ghost var checked := service.Snapshot();
    if over {
      service.ReleaseFor(id, i);
      AfterOne(checked, Release(i));
      answer := QuotaExceeded;
    } else {
      answer := RunAndRelease(receive, id, app, service, i);
    }
    AfterBoth(start, [CheckWindow(i, over)], if over then [Release(i)] else EndRun(i, end));
  }

  /** The acquisition, the application and the release of QuotaMiddleware.__call__. */
  method CallUnderQuota(receive: QuotaReplay, principal: Principal, space: Option<string>,
                        acquisition: Acquisition, window: WindowCheck, app: App, service: QuotaService)
    returns (answer: Answer)
    requires receive.Valid() && service.Valid()
    modifies receive, receive.upstream, receive.upstream.server, service
    ensures service.Valid()
    ensures var (got, end) := AppOn(old(receive.Remaining()), app);
            var over := space.Some? && window == Exceeded;
            && service.Snapshot() ==
               After(old(service.Snapshot()), QuotaRun(|old(service.calls)|, principal.id, acquisition, over, end))
            && answer == AnswerUnderQuota(got, end, acquisition, over)
  {
    hide Apply, AppOn, WindowRun, AppAnswer, Balanced, After;
    ghost var start := service.Snapshot();
    ghost var end := AppOn(receive.Remaining(), app).1;
    var over := space.Some? && window == Exceeded;
    ghost var i := service.Enter(principal.id);
    ghost var arrived := service.Snapshot();
    AfterArrival(start, principal.id);
    var ok := service.AcquireFor(principal.id, acquisition, i);
    ghost var acquired := service.Snapshot();
    AcquiredCall(start, principal.id, acquisition);
    AfterOne(arrived, Acquire(i, acquisition));
    if ok {
      answer := CheckAndRun(receive, principal.id, over, app, service, i);
    } else {
      answer := if acquisition == Unusable then ServiceFailed else QuotaExceeded;
      AfterNothing(acquired);
    }
    ghost var rest := if ok then WindowRun(i, over, end) else [];
    AfterBoth(arrived, [Acquire(i, acquisition)], rest);
    AfterBoth(start, [Arrive(principal.id)], [Acquire(i, acquisition)] + rest);
  }

  function AnswerUnderQuota(got: seq<Message>, end: AppEnd, acquisition: Acquisition, over: bool): Answer {
    if acquisition == Unusable then ServiceFailed
    else if acquisition == OverQuota || over then QuotaExceeded
    else AppAnswer(got, end)
  }

  lemma AfterNothing(w: Pool)
    ensures After(w, []) == w
  {
  }

  lemma AfterArrival(w: Pool, id: nat)
    ensures var r := Apply(w, Arrive(id));
            After(w, [Arrive(id)]) == r && At(r, |w.calls|, Arrived) && r.calls[|w.calls|].id == id
  {
    AfterOne(w, Arrive(id));
  }

  lemma AcquiredCall(w: Pool, id: nat, acquisition: Acquisition)
    ensures var i := |w.calls|;
            var r := Apply(Apply(w, Arrive(id)), Acquire(i, acquisition));
            acquisition == Granted ==> At(r, i, Checking) && r.calls[i].id == id
  {
  }

  lemma AfterWindow(w: Pool, i: nat, over: bool)
    requires At(w, i, Checking)
    ensures var r := Apply(w, CheckWindow(i, over));
            At(r, i, if over then Unwinding(OverWindow) else Running) && r.calls[i].id == w.calls[i].id
  {
  }

  lemma AfterEnd(w: Pool, i: nat, ending: Ending)
    requires At(w, i, Running)
    ensures var r := Apply(w, EndApp(i, ending));
            At(r, i, Unwinding(Finished(ending))) && r.calls[i].id == w.calls[i].id
  {
  }

  /**
   What a request that is not stuck before the quota comes to: its answer, and what it did to the service.
   Public paths and callers without an active principal go round the quota.
   */
  ghost predicate QuotaVerdict(stream: seq<Message>, isPublic: bool, principal: Option<Principal>,
                               spaceOf: (seq<Byte>, bool) -> Option<string>,
                               acquisition: Acquisition, window: WindowCheck, app: App,
                               before: Pool, answer: Answer, after: Pool)
  {
    var request := UpToFinal(stream);
    var space := spaceOf(Prefix(Body(request), 65536), Disconnect in request);
    var over := space.Some? && window == Exceeded;
    var (got, end) := AppOn(stream, app);
    if isPublic || principal.None? || !principal.value.active then answer == AppAnswer(got, end) && after == before
    else
      && answer == AnswerUnderQuota(got, end, acquisition, over)
      && after == After(before, QuotaRun(|before.calls|, principal.value.id, acquisition, over, end))
  }

  /**
   The application runs exactly for a public path, for a caller without an active principal, or for a request
   that is granted and within its window; and whatever has an answer has given back what it acquired.
   */
  lemma AppRunsExactlyWhen(stream: seq<Message>, isPublic: bool, principal: Option<Principal>,
                           spaceOf: (seq<Byte>, bool) -> Option<string>, acquisition: Acquisition,
                           window: WindowCheck, app: App, before: Pool, answer: Answer, after: Pool)
    requires QuotaVerdict(stream, isPublic, principal, spaceOf, acquisition, window, app, before, answer, after)
    ensures var request := UpToFinal(stream);
            var over := spaceOf(Prefix(Body(request), 65536), Disconnect in request).Some? && window == Exceeded;
            var free := isPublic || principal.None? || !principal.value.active;
            var ran := answer.AppReturned? || answer.AppRaised? || answer.AppWaits?;
      && (ran <==> free || (acquisition == Granted && !over))
      && (answer.ServiceFailed? <==> !free && acquisition == Unusable)
      && (answer.QuotaExceeded? <==> !free && (acquisition == OverQuota || (acquisition == Granted && over)))
      && (ran ==> answer.got <= stream)
      && (answer.AppReturned? ==>
            |answer.got| == app.asks && (app.raisesAfter.Some? ==> app.raisesAfter.value > app.asks))
      && (answer.AppRaised? ==> app.raisesAfter == Some(|answer.got|))
      && (answer.AppWaits? ==> answer.got == stream)
      && (free ==> after == before)
      && (!answer.AppWaits? ==> after.held == before.held)
  {
    AppGetsAPrefix(stream, app);
    hide UpToFinal, Body, Prefix, AppOn, Raises;
    var (got, end) := AppOn(stream, app);
    var request := UpToFinal(stream);
    var over := spaceOf(Prefix(Body(request), 65536), Disconnect in request).Some? && window == Exceeded;
    if !isPublic && principal.Some? && principal.value.active {
      RunHolds(before, principal.value.id, acquisition, over, end);
    }
    hide QuotaRun, After;
  }

  /** What is held after a request is what was held before, unless its application waits. */
  lemma RunHolds(w: Pool, id: nat, acquisition: Acquisition, over: bool, end: AppEnd)
    ensures acquisition != Granted || over || !end.Stuck? ==>
              After(w, QuotaRun(|w.calls|, id, acquisition, over, end)).held == w.held
  {
    var i := |w.calls|;
    var w1 := Apply(w, Arrive(id));
    var w2 := Apply(w1, Acquire(i, acquisition));
    var rest := if acquisition == Granted then WindowRun(i, over, end) else [];
    AfterBoth(w, [Arrive(id)], [Acquire(i, acquisition)] + rest);
    AfterOne(w, Arrive(id));
    AfterBoth(w1, [Acquire(i, acquisition)], rest);
    AfterOne(w1, Acquire(i, acquisition));
    if acquisition == Granted && (over || !end.Stuck?) {
      assert w2.held == w.held + multiset{id} && At(w2, i, Checking) && w2.calls[i].id == id;
      WindowGivesBack(w2, i, over, end);
      assert (w.held + multiset{id}) - multiset{id} == w.held;
    } else if acquisition != Granted {
      AfterNothing(w2);
    }
  }

  lemma WindowGivesBack(w: Pool, i: nat, over: bool, end: AppEnd)
    requires At(w, i, Checking) && (over || !end.Stuck?)
    ensures After(w, WindowRun(i, over, end)).held == w.held - multiset{w.calls[i].id}
  {
    var w1 := Apply(w, CheckWindow(i, over));
    AfterBoth(w, [CheckWindow(i, over)], if over then [Release(i)] else EndRun(i, end));
    AfterOne(w, CheckWindow(i, over));
    AfterWindow(w, i, over);
    if over {
      AfterOne(w1, Release(i));
    } else {
      AfterBoth(w1, [EndApp(i, end.ending)], [Release(i)]);
      AfterOne(w1, EndApp(i, end.ending));
      AfterEnd(w1, i, end.ending);
      AfterOne(Apply(w1, EndApp(i, end.ending)), Release(i));
    }
  }

  /** QuotaMiddleware.__call__ for an HTTP request. */
  method QuotaCall(upstream: LimitReplay, isPublic: bool, principal: Option<Principal>,
                   spaceOf: (seq<Byte>, bool) -> Option<string>, acquisition: Acquisition, window: WindowCheck,
                   app: App, service: QuotaService)
    returns (answer: Answer)
    requires upstream.Valid() && service.Valid()
    modifies upstream, upstream.server, service
    ensures service.Valid()
    ensures var stream := old(upstream.Remaining());
            if !isPublic && NoneFinal(stream)
            then answer == NeverAnswered && service.Snapshot() == old(service.Snapshot())
            else QuotaVerdict(stream, isPublic, principal, spaceOf, acquisition, window, app,
                              old(service.Snapshot()), answer, service.Snapshot())
  {
    hide After, QuotaRun, AppOn, Balanced, UpToFinal, Body, NoneFinal, AnswerUnderQuota;
    if isPublic {
      var direct := new QuotaReplay(upstream, []);
      assert direct.Remaining() == upstream.Remaining();
      var got, end := RunApp(direct, app);
      return AppAnswer(got, end);
    }
    var outcome, messages, sniffed, disconnected := SniffAhead(upstream);
    if outcome == Waiting { return NeverAnswered; }
    var space := spaceOf(sniffed, disconnected);
    var replay := new QuotaReplay(upstream, messages);
    if principal.None? || !principal.value.active {
      var got, end := RunApp(replay, app);
      return AppAnswer(got, end);
    }
    answer := CallUnderQuota(replay, principal.value, space, acquisition, window, app, service);
  }

  // ---- both ----

  /** A Content-Length header: absent, not a number, or a number. */
  datatype Declared = Absent | Malformed | Length(n: int)

  /**
   A request through both middlewares.  The application, if it runs, receives exactly the messages the
   server sent, in order, and it runs only if the body is within the limit.
   */
  method HandleRequest(server: Server, declared: Declared, maxBody: nat, isPublic: bool, principal: Option<Principal>,
                       spaceOf: (seq<Byte>, bool) -> Option<string>, acquisition: Acquisition, window: WindowCheck,
                       app: App, service: QuotaService)
    returns (answer: Answer)
    requires service.Valid()
    modifies server, service
    ensures service.Valid()
    ensures var stream := old(server.incoming);
            if declared.Malformed? || (declared.Length? && (declared.n < 0 || declared.n > maxBody)) ||
               |Body(UpToFinal(stream))| > maxBody
            then answer == BodyTooLarge && service.Snapshot() == old(service.Snapshot())
            else if NoneFinal(stream)
            then answer == NeverAnswered && service.Snapshot() == old(service.Snapshot())
            else QuotaVerdict(stream, isPublic, principal, spaceOf, acquisition, window, app,
                              old(service.Snapshot()), answer, service.Snapshot())
    ensures answer.AppReturned? || answer.AppRaised? || answer.AppWaits? ==>
              && |Body(UpToFinal(old(server.incoming)))| <= maxBody
              && answer.got == AppOn(old(server.incoming), app).0
  {
    hide After, QuotaRun, AppOn, Balanced, UpToFinal, Body, NoneFinal;
    if declared.Malformed? { return BodyTooLarge; }
    if declared.Length? && (declared.n < 0 || declared.n > maxBody) { return BodyTooLarge; }
    var outcome, messages := BufferWithinLimit(server, maxBody);
    if outcome == TooLarge { return BodyTooLarge; }
    if outcome == Waiting { return NeverAnswered; }
    var replay := new LimitReplay(server, messages);
    answer := QuotaCall(replay, isPublic, principal, spaceOf, acquisition, window, app, service);
  }
}
