/** One JSONP fetch (`JSONPConnection`): the connection record, one pure step
    function per event the host can deliver, and the ordered trace of calls
    the connection makes on its collaborators (the `BrowserJsonp` service,
    the script element and the response observer). */
module JsonpConnection {
  import opened Wrappers
  import opened JsString
  import CallbackUrl

  datatype RequestMethod = Get | Post | Put | Delete | Options | Head | Patch

  datatype Request = Request(requestMethod: RequestMethod, url: Utf16)

  /** `readyState`; `Unset` stands for the `undefined` it holds until the
      response stream is subscribed. */
  datatype ReadyState = Unset | Loading | Done | Cancelled

  /** The two script-element events the connection listens to. */
  datatype Signal = LoadSignal | ErrorSignal

  /** The script element `build(url)` returns, identified by its source URL. */
  datatype Script = Script(src: Utf16)

  /** What subscribing fixes: the request id and callback name handed out by
      the host, the script built for the rewritten URL, and the listeners
      currently attached to that script. */
  datatype Subscription = Subscription(id: Utf16, callback: Utf16, script: Script, listeners: set<Signal>)

  /** A JavaScript value the connection only passes along (the delivered
      payload, an error event), known by its identity alone. */
  datatype Value = Value(handle: nat)

  /** Response options, with `merge` left uninterpreted: `Merged(base, o)`
      stands for `base.merge(o)`. `B` is the type of the base options. */
  datatype ResponseOptions<B> = WithBody(body: Option<Value>) | Merged(base: B, override: ResponseOptions<B>)

  datatype Response<B> = Response(options: ResponseOptions<B>)

  /** A value thrown or passed to `responseObserver.error`. A type error's
      message is only ever passed along, so it is kept as plain text. */
  datatype StreamError = TypeError(message: string) | Raised(value: Value)

  /** One call the connection makes, in the order it makes them. */
  datatype Effect<B> =
    | NextRequestId(id: Utf16)
    | ExposeConnection(id: Utf16)
    | RequestCallback(id: Utf16, callback: Utf16)
    | Build(url: Utf16)
    | AddListener(signal: Signal)
    | Send(script: Script)
    | RemoveListener(signal: Signal)
    | Cleanup(script: Script)
    | RemoveConnection(connectionId: Option<Utf16>)
    | Next(response: Response<B>)
    | Complete
    | Error(error: StreamError)
  {
    /** A call on the response observer rather than on the DOM service. */
    predicate IsStream() {
      Next? || Complete? || Error?
    }
  }

  /** Any observer call in `fx` comes after a `cleanup` that opens `fx`. */
  predicate CleanupFirst<B>(fx: seq<Effect<B>>) {
    forall k :: 0 <= k < |fx| && fx[k].IsStream() ==> 0 < k && fx[0].Cleanup?
  }

  /** No call in `fx` unregisters the connection. */
  predicate KeepsRegistration<B>(fx: seq<Effect<B>>) {
    forall k :: 0 <= k < |fx| ==> !fx[k].RemoveConnection?
  }

  /** What the host can do to a connection. `Subscribe` carries the values
      `nextRequestID()` and `requestCallback(id)` return; `Finished` is the
      injected script calling back, with or without data; `Cancel` is one run
      of the teardown returned to the stream machinery. */
  datatype Event =
    | Subscribe(id: Utf16, callback: Utf16)
    | Finished(data: Option<Value>)
    | LoadFired
    | ErrorFired(error: Value)
    | Cancel

  datatype Connection<B> = Connection(
    request: Request,
    baseOptions: Option<B>,
    readyState: ReadyState,
    sub: Option<Subscription>,
    finished: bool,
    responseData: Option<Value>)

  const GetOnlyMessage: string := "JSONP requests must use GET request method."

  const NoCallbackMessage: string := "JSONP injected script did not invoke callback."

  /** The states a connection can reach: only GET requests get one; it is
      unsubscribed exactly while `readyState` is unset; its script is built
      from the rewritten URL; both listeners stay attached until cancelled. */
  predicate Valid<B(==)>(c: Connection<B>) {
    && c.request.requestMethod == Get
    && (c.readyState == Unset <==> c.sub.None?)
    && (c.sub.Some? ==>
          && c.sub.value.script == Script(CallbackUrl.Rewrite(c.request.url, c.sub.value.callback))
          && c.sub.value.listeners == if c.readyState == Cancelled then {} else {LoadSignal, ErrorSignal})
  }

  /** The connection as constructed and not yet subscribed. */
  predicate Fresh<B(==)>(c: Connection<B>, req: Request, baseOptions: Option<B>) {
    && c.request == req
    && c.baseOptions == baseOptions
    && c.readyState == Unset
    && c.sub.None?
    && !c.finished
    && c.responseData.None?
  }

  /** The constructor: anything but GET throws a type error, and nothing else
      happens until the response stream is subscribed. */
  function New<B(==)>(req: Request, baseOptions: Option<B>): (r: Result<Connection<B>, StreamError>)
    ensures r.Success? <==> req.requestMethod == Get
    ensures r.Failure? ==> r.error == TypeError(GetOnlyMessage)
    ensures r.Success? ==> Valid(r.value) && Fresh(r.value, req, baseOptions)
  {
    if req.requestMethod != Get then Failure(TypeError(GetOnlyMessage))
    else Success(Connection(req, baseOptions, Unset, None, false, None))
  }

  /** The calls subscribing makes, in order. */
  function SubscribeCalls<B(==)>(id: Utf16, callback: Utf16, url: Utf16): seq<Effect<B>> {
    [ NextRequestId(id), ExposeConnection(id), RequestCallback(id, callback), Build(url),
      AddListener(LoadSignal), AddListener(ErrorSignal), Send(Script(url)) ]
  }

  /** The subscribe body of the response stream. A connection that is
      already subscribed is left alone (a second subscription is outside
      the model). */
  function OnSubscribe<B(==)>(c: Connection<B>, id: Utf16, callback: Utf16): (r: (Connection<B>, seq<Effect<B>>))
    ensures c.sub.Some? ==> r == (c, [])
    ensures c.sub.None? ==>
              var url := CallbackUrl.Rewrite(c.request.url, callback);
              && r.0.readyState == Loading
              && IdOf(r.0) == Some(id)
              && r.0.sub.value.script == Script(url)
              && Listening(r.0, LoadSignal) && Listening(r.0, ErrorSignal)
              && r.0.finished == c.finished && r.0.responseData == c.responseData
              && r.0.request == c.request && r.0.baseOptions == c.baseOptions
              && r.1 == SubscribeCalls(id, callback, url)
    ensures Valid(c) ==> Valid(r.0)
    ensures forall k :: 0 <= k < |r.1| ==> !r.1[k].IsStream() && !r.1[k].Cleanup?
    ensures KeepsRegistration(r.1)
  {
    if c.sub.Some? then (c, [])
    else
      var url := CallbackUrl.Rewrite(c.request.url, callback);
      var script := Script(url);
      (c.(readyState := Loading, sub := Some(Subscription(id, callback, script, {LoadSignal, ErrorSignal}))),
       SubscribeCalls(id, callback, url))
  }

  /** `_id`, which is `undefined` until the stream is subscribed. */
  function IdOf<B(==)>(c: Connection<B>): Option<Utf16> {
    if c.sub.Some? then Some(c.sub.value.id) else None
  }

  /** `finished(data)`: always marks the callback as invoked and unregisters
      the connection; keeps the data only when not cancelled. */
  function OnFinished<B(==)>(c: Connection<B>, data: Option<Value>): (r: (Connection<B>, seq<Effect<B>>))
    ensures r.0.finished
    ensures r.1 == [RemoveConnection(IdOf(c))]
    ensures r.0.responseData == if c.readyState == Cancelled then c.responseData else data
    ensures r.0.request == c.request && r.0.baseOptions == c.baseOptions
    ensures r.0.readyState == c.readyState && r.0.sub == c.sub
    ensures Valid(c) ==> Valid(r.0)
  {
    var c1 := c.(finished := true);
    if c.readyState == Cancelled then (c1, [RemoveConnection(IdOf(c))])
    else (c1.(responseData := data), [RemoveConnection(IdOf(c))])
  }

  /** The options of the response: the delivered data as body, merged into
      the base options when there are any. */
  function ResponseOptionsFor<B(==)>(baseOptions: Option<B>, data: Option<Value>): ResponseOptions<B> {
    var own := WithBody(data);
    if baseOptions.Some? then Merged(baseOptions.value, own) else own
  }

  /** Whether the script currently has a listener for `s`. */
  predicate Listening<B(==)>(c: Connection<B>, s: Signal) {
    c.sub.Some? && s in c.sub.value.listeners
  }

  /** The `load` listener. */
  function OnLoad<B(==)>(c: Connection<B>): (r: (Connection<B>, seq<Effect<B>>))
    ensures !Listening(c, LoadSignal) || c.readyState == Cancelled ==> r == (c, [])
    ensures Listening(c, LoadSignal) && c.readyState != Cancelled ==>
              && r.0 == c.(readyState := Done)
              && |r.1| >= 2
              && r.1[0] == Cleanup(c.sub.value.script)
              && (!c.finished ==> r.1[1..] == [Error(TypeError(NoCallbackMessage))])
              && (c.finished ==>
                    r.1[1..] == [Next(Response(ResponseOptionsFor(c.baseOptions, c.responseData))), Complete])
    ensures Valid(c) ==> Valid(r.0)
    ensures CleanupFirst(r.1) && KeepsRegistration(r.1)
  {
    if !Listening(c, LoadSignal) then (c, [])
    else if c.readyState == Cancelled then (c, [])
    else
      var script := c.sub.value.script;
      var c1 := c.(readyState := Done);
      if !c.finished then
        (c1, [Cleanup(script), Error(TypeError(NoCallbackMessage))])
      else
        (c1, [Cleanup(script), Next(Response(ResponseOptionsFor(c.baseOptions, c.responseData))), Complete])
  }

  /** The `error` listener: the event is forwarded as the stream error. */
  function OnError<B(==)>(c: Connection<B>, error: Value): (r: (Connection<B>, seq<Effect<B>>))
    ensures !Listening(c, ErrorSignal) || c.readyState == Cancelled ==> r == (c, [])
    ensures Listening(c, ErrorSignal) && c.readyState != Cancelled ==>
              && r.0 == c.(readyState := Done)
              && r.1 == [Cleanup(c.sub.value.script), Error(Raised(error))]
    ensures Valid(c) ==> Valid(r.0)
    ensures CleanupFirst(r.1) && KeepsRegistration(r.1)
  {
    if !Listening(c, ErrorSignal) then (c, [])
    else if c.readyState == Cancelled then (c, [])
    else (c.(readyState := Done), [Cleanup(c.sub.value.script), Error(Raised(error))])
  }

  /** The teardown the subscribe body returns; there is none before
      subscription. */
  function OnCancel<B(==)>(c: Connection<B>): (r: (Connection<B>, seq<Effect<B>>))
    ensures c.sub.None? ==> r == (c, [])
    ensures c.sub.Some? ==>
              && r.0.readyState == Cancelled
              && r.0.sub == Some(c.sub.value.(listeners := c.sub.value.listeners - {LoadSignal, ErrorSignal}))
              && !Listening(r.0, LoadSignal) && !Listening(r.0, ErrorSignal)
              && r.0.finished == c.finished && r.0.responseData == c.responseData
              && r.0.request == c.request && r.0.baseOptions == c.baseOptions
              && r.1 == [RemoveListener(LoadSignal), RemoveListener(ErrorSignal), Cleanup(c.sub.value.script)]
    ensures Valid(c) ==> Valid(r.0)
    ensures CleanupFirst(r.1) && KeepsRegistration(r.1)
  {
    if c.sub.None? then (c, [])
    else
      var s := c.sub.value;
      (c.(readyState := Cancelled, sub := Some(s.(listeners := s.listeners - {LoadSignal, ErrorSignal}))),
       [RemoveListener(LoadSignal), RemoveListener(ErrorSignal), Cleanup(s.script)])
  }

  function Step<B(==)>(c: Connection<B>, e: Event): (r: (Connection<B>, seq<Effect<B>>))
    ensures Valid(c) ==> Valid(r.0)
    ensures r.0.request == c.request && r.0.baseOptions == c.baseOptions
    ensures RemoveConnectionCalls(r.1) == if e.Finished? then 1 else 0
    ensures CleanupFirst(r.1)
  {
    var r := match e
      case Subscribe(id, callback) => OnSubscribe(c, id, callback)
      case Finished(data) => OnFinished(c, data)
      case LoadFired => OnLoad(c)
      case ErrorFired(error) => OnError(c, error)
      case Cancel => OnCancel(c);
    if e.Finished? then r else NoRemoveConnectionCalls(r.1); r
  }

  /** How many calls in `fx` are `removeConnection`. */
  function RemoveConnectionCalls<B>(fx: seq<Effect<B>>): nat {
    if |fx| == 0 then 0
    else (if fx[0].RemoveConnection? then 1 else 0) + RemoveConnectionCalls(fx[1..])
  }

  /** How many of `events` are calls of `finished`. */
  function FinishedCalls(events: seq<Event>): nat {
    if |events| == 0 then 0
    else (if events[0].Finished? then 1 else 0) + FinishedCalls(events[1..])
  }

  lemma {:induction false} NoRemoveConnectionCalls<B>(fx: seq<Effect<B>>)
    requires KeepsRegistration(fx)
    ensures RemoveConnectionCalls(fx) == 0
    decreases |fx|
  {
    if |fx| > 0 {
      NoRemoveConnectionCalls(fx[1..]);
    }
  }

  lemma {:induction false} RemoveConnectionCallsAppend<B>(a: seq<Effect<B>>, b: seq<Effect<B>>)
    ensures RemoveConnectionCalls(a + b) == RemoveConnectionCalls(a) + RemoveConnectionCalls(b)
    decreases |a|
  {
    if |a| > 0 {
      assert (a + b)[1..] == a[1..] + b;
      RemoveConnectionCallsAppend(a[1..], b);
    } else {
      assert a + b == b;
    }
  }

  /** `Run` unfolded once. */
  lemma RunCons<B>(c: Connection<B>, events: seq<Event>, c1: Connection<B>, fx1: seq<Effect<B>>,
                      c2: Connection<B>, fx2: seq<Effect<B>>)
    requires |events| > 0
    requires Step(c, events[0]) == (c1, fx1)
    requires Run(c1, events[1..]) == (c2, fx2)
    ensures Run(c, events) == (c2, fx1 + fx2)
  {
  }

  /** The connection after `events`, in order, and every call they caused. */
  function Run<B(==)>(c: Connection<B>, events: seq<Event>): (r: (Connection<B>, seq<Effect<B>>))
    ensures Valid(c) ==> Valid(r.0)
    ensures r.0.request == c.request && r.0.baseOptions == c.baseOptions
    ensures RemoveConnectionCalls(r.1) == FinishedCalls(events)
    decreases |events|
  {
    if |events| == 0 then (c, [])
    else
      var (c1, fx1) := Step(c, events[0]);
      var (c2, fx2) := Run(c1, events[1..]);
      RemoveConnectionCallsAppend(fx1, fx2);
      (c2, fx1 + fx2)
  }

  /** Once cancelled, nothing but another teardown run can act on the
      connection: signals and late callbacks leave it cancelled with the same
      subscription and data, and the only calls left are `removeConnection`
      from `finished`. */
  lemma {:induction false} CancelIsFinal<B>(c: Connection<B>, events: seq<Event>)
    requires Valid(c) && c.readyState == Cancelled
    requires forall i :: 0 <= i < |events| ==> !events[i].Cancel?
    ensures Run(c, events).0.readyState == Cancelled
    ensures Run(c, events).0.sub == c.sub
    ensures Run(c, events).0.responseData == c.responseData
    ensures forall k :: 0 <= k < |Run(c, events).1| ==> Run(c, events).1[k].RemoveConnection?
    decreases |events|
  {
    if |events| > 0 {
      var (c1, fx1) := Step(c, events[0]);
      CancelIsFinal(c1, events[1..]);
      var fx2 := Run(c1, events[1..]).1;
      assert Run(c, events).1 == fx1 + fx2;
      forall k | 0 <= k < |fx1 + fx2|
        ensures (fx1 + fx2)[k].RemoveConnection?
      {
        if k >= |fx1| {
          assert (fx1 + fx2)[k] == fx2[k - |fx1|];
        }
      }
    }
  }

  /** While cancelled, `load` and `error` signals change nothing and cause
      no call at all. */
  lemma {:induction false} SignalsWhileCancelledAreInert<B>(c: Connection<B>, events: seq<Event>)
    requires Valid(c) && c.readyState == Cancelled
    requires forall i :: 0 <= i < |events| ==> events[i].LoadFired? || events[i].ErrorFired?
    ensures Run(c, events) == (c, [])
    decreases |events|
  {
    if |events| > 0 {
      assert Step(c, events[0]) == (c, []);
      SignalsWhileCancelledAreInert(c, events[1..]);
    }
  }

  /** After the teardown has run, `load` and `error` signals change nothing
      and cause no call at all. */
  lemma SignalsAfterCancelAreInert<B>(c: Connection<B>, events: seq<Event>)
    requires Valid(c) && c.sub.Some?
    requires forall i :: 0 <= i < |events| ==> events[i].LoadFired? || events[i].ErrorFired?
    ensures Run(OnCancel(c).0, events) == (OnCancel(c).0, [])
  {
    SignalsWhileCancelledAreInert(OnCancel(c).0, events);
  }

  /** Every observer call is preceded by a `cleanup` of the script: the
      element is released before the stream is told anything. */
  lemma {:induction false} CleanupPrecedesStreamEvents<B>(c: Connection<B>, events: seq<Event>)
    ensures forall k :: 0 <= k < |Run(c, events).1| && Run(c, events).1[k].IsStream() ==>
              exists j :: 0 <= j < k && Run(c, events).1[j].Cleanup?
    decreases |events|
  {
    if |events| > 0 {
      var (c1, fx1) := Step(c, events[0]);
      CleanupPrecedesStreamEvents(c1, events[1..]);
      var fx2 := Run(c1, events[1..]).1;
      var fx := fx1 + fx2;
      assert Run(c, events).1 == fx;
      forall k | 0 <= k < |fx| && fx[k].IsStream()
        ensures exists j :: 0 <= j < k && fx[j].Cleanup?
      {
        if k < |fx1| {
          assert fx[0] == fx1[0];
        } else {
          assert fx[k] == fx2[k - |fx1|];
          var j :| 0 <= j < k - |fx1| && fx2[j].Cleanup?;
          assert fx[j + |fx1|] == fx2[j];
        }
      }
    }
  }
}
