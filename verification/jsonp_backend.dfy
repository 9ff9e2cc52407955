/** `JSONPBackend`, the entry point that turns requests into JSONP
    connections, and whole connection lifecycles driven by host events. */
module JsonpBackend {
  import opened Wrappers
  import opened JsString
  import opened JsonpConnection
  import CallbackUrl

  /** The backend holds the base response options every connection gets. */
  datatype Backend<B> = Backend(baseOptions: Option<B>)

  /** `createConnection(request)`: a new connection for a GET request bound
      to the backend's base options; any other method throws. */
  function CreateConnection<B(==)>(backend: Backend<B>, req: Request): (r: Result<Connection<B>, StreamError>)
    ensures r.Success? <==> req.requestMethod == Get
    ensures r.Failure? ==> r.error == TypeError(GetOnlyMessage)
    ensures r.Success? ==> Valid(r.value) && Fresh(r.value, req, backend.baseOptions)
  {
    New(req, backend.baseOptions)
  }

  /** A connection created by the backend, then driven by `events`: the
      outcome of construction and every call made along the way. */
  function Lifecycle<B(==)>(backend: Backend<B>, req: Request, events: seq<Event>)
    : (r: (Result<Connection<B>, StreamError>, seq<Effect<B>>))
    ensures req.requestMethod != Get ==> r.0 == Failure(TypeError(GetOnlyMessage)) && r.1 == []
    ensures req.requestMethod == Get ==>
              && r.0.Success? && Valid(r.0.value)
              && r.0.value.request == req && r.0.value.baseOptions == backend.baseOptions
              && RemoveConnectionCalls(r.1) == FinishedCalls(events)
  {
    match CreateConnection(backend, req)
    case Failure(err) => (Failure(err), [])
    case Success(c) =>
      var (c', fx) := Run(c, events);
      (Success(c'), fx)
  }

  /** The script a subscription with callback name `cb` builds for `url`. */
  function ScriptFor(url: Utf16, cb: Utf16): Script {
    Script(CallbackUrl.Rewrite(url, cb))
  }

  /** A GET lifecycle is the run of the freshly created connection. */
  lemma LifecycleOfGet<B>(backend: Backend<B>, url: Utf16, events: seq<Event>, c: Connection<B>,
                             fx: seq<Effect<B>>)
    requires Run(New<B>(Request(Get, url), backend.baseOptions).value, events) == (c, fx)
    ensures Lifecycle(backend, Request(Get, url), events) == (Success(c), fx)
  {
  }

  /** The connection once subscribed with request id `id` and callback `cb`. */
  function Subscribed<B>(backend: Backend<B>, url: Utf16, id: Utf16, cb: Utf16): Connection<B> {
    Connection(Request(Get, url), backend.baseOptions, Loading,
               Some(Subscription(id, cb, ScriptFor(url, cb), {LoadSignal, ErrorSignal})), false, None)
  }

  lemma SubscribeStep<B>(backend: Backend<B>, url: Utf16, id: Utf16, cb: Utf16)
    ensures Step(New<B>(Request(Get, url), backend.baseOptions).value, Subscribe(id, cb))
            == (Subscribed(backend, url, id, cb), SubscribeCalls(id, cb, ScriptFor(url, cb).src))
  {
  }

  /** Callback first, then `load`: one response carrying the delivered data,
      then completion; the connection is unregistered once and the script
      released once, before the response is emitted. */
  lemma DeliveredThenLoaded<B>(backend: Backend<B>, url: Utf16, id: Utf16, cb: Utf16, data: Option<Value>)
    ensures
      var r := Lifecycle(backend, Request(Get, url), [Subscribe(id, cb), Finished(data), LoadFired]);
      && r.0.Success? && r.0.value.readyState == Done
      && r.1 == SubscribeCalls<B>(id, cb, ScriptFor(url, cb).src)
                + [ RemoveConnection(Some(id)), Cleanup(ScriptFor(url, cb)),
                    Next(Response(ResponseOptionsFor(backend.baseOptions, data))), Complete ]
  {
    var script := ScriptFor(url, cb);
    var events := [Subscribe(id, cb), Finished(data), LoadFired];
    var c0 := New<B>(Request(Get, url), backend.baseOptions).value;
    var c1 := Subscribed<B>(backend, url, id, cb);
    var c2 := c1.(finished := true, responseData := data);
    var c3 := c2.(readyState := Done);
    var fx1 := SubscribeCalls<B>(id, cb, script.src);
    var fx2: seq<Effect<B>> := [RemoveConnection(Some(id))];
    var fx3: seq<Effect<B>> := [Cleanup(script), Next(Response(ResponseOptionsFor(backend.baseOptions, data))), Complete];
    SubscribeStep<B>(backend, url, id, cb);
    assert Step(c1, Finished(data)) == (c2, fx2);
    assert Step(c2, LoadFired) == (c3, fx3);
    RunCons(c2, events[2..], c3, fx3, c3, []);
    RunCons(c1, events[1..], c2, fx2, c3, fx3 + []);
    RunCons(c0, events, c1, fx1, c3, fx2 + (fx3 + []));
    LifecycleOfGet(backend, url, events, c3, fx1 + (fx2 + (fx3 + [])));
    assert fx1 + (fx2 + (fx3 + [])) == fx1 + (fx2 + fx3);
  }

  /** `load` without the callback having been invoked: the stream fails with
      the type error, and `removeConnection` is never called. */
  lemma LoadedWithoutCallback<B>(backend: Backend<B>, url: Utf16, id: Utf16, cb: Utf16)
    ensures
      var r := Lifecycle<B>(backend, Request(Get, url), [Subscribe(id, cb), LoadFired]);
      && r.0.Success? && r.0.value.readyState == Done
      && r.1 == SubscribeCalls<B>(id, cb, ScriptFor(url, cb).src)
                + [ Cleanup(ScriptFor(url, cb)), Error(TypeError(NoCallbackMessage)) ]
  {
    var script := ScriptFor(url, cb);
    var events: seq<Event> := [Subscribe(id, cb), LoadFired];
    var c0 := New<B>(Request(Get, url), backend.baseOptions).value;
    var c1 := Subscribed<B>(backend, url, id, cb);
    var c2 := c1.(readyState := Done);
    var fx1 := SubscribeCalls<B>(id, cb, script.src);
    var fx2: seq<Effect<B>> := [Cleanup(script), Error(TypeError(NoCallbackMessage))];
    SubscribeStep<B>(backend, url, id, cb);
    assert Step(c1, LoadFired) == (c2, fx2);
    RunCons(c1, events[1..], c2, fx2, c2, []);
    RunCons(c0, events, c1, fx1, c2, fx2 + []);
    LifecycleOfGet(backend, url, events, c2, fx1 + (fx2 + []));
    assert fx1 + (fx2 + []) == fx1 + fx2;
  }

  /** `error` from the script: the script is released and the event itself is
      the stream error; `removeConnection` is never called. */
  lemma ScriptFailed<B>(backend: Backend<B>, url: Utf16, id: Utf16, cb: Utf16, error: Value)
    ensures
      var r := Lifecycle<B>(backend, Request(Get, url), [Subscribe(id, cb), ErrorFired(error)]);
      && r.0.Success? && r.0.value.readyState == Done
      && r.1 == SubscribeCalls<B>(id, cb, ScriptFor(url, cb).src)
                + [ Cleanup(ScriptFor(url, cb)), Error(Raised(error)) ]
  {
    var script := ScriptFor(url, cb);
    var events: seq<Event> := [Subscribe(id, cb), ErrorFired(error)];
    var c0 := New<B>(Request(Get, url), backend.baseOptions).value;
    var c1 := Subscribed<B>(backend, url, id, cb);
    var c2 := c1.(readyState := Done);
    var fx1 := SubscribeCalls<B>(id, cb, script.src);
    var fx2: seq<Effect<B>> := [Cleanup(script), Error(Raised(error))];
    SubscribeStep<B>(backend, url, id, cb);
    assert Step(c1, ErrorFired(error)) == (c2, fx2);
    RunCons(c1, events[1..], c2, fx2, c2, []);
    RunCons(c0, events, c1, fx1, c2, fx2 + []);
    LifecycleOfGet(backend, url, events, c2, fx1 + (fx2 + []));
    assert fx1 + (fx2 + []) == fx1 + fx2;
  }

  /** Cancelled, then the callback and `load` arrive late: the teardown
      removes both listeners and releases the script; the late callback still
      unregisters the connection but its data is dropped, and `load` does
      nothing. No observer call is made. */
  lemma CancelledThenLate<B>(backend: Backend<B>, url: Utf16, id: Utf16, cb: Utf16, data: Option<Value>)
    ensures
      var r := Lifecycle(backend, Request(Get, url), [Subscribe(id, cb), Cancel, Finished(data), LoadFired]);
      && r.0.Success? && r.0.value.readyState == Cancelled && r.0.value.responseData.None?
      && r.1 == SubscribeCalls<B>(id, cb, ScriptFor(url, cb).src)
                + [ RemoveListener(LoadSignal), RemoveListener(ErrorSignal), Cleanup(ScriptFor(url, cb)),
                    RemoveConnection(Some(id)) ]
  {
    var script := ScriptFor(url, cb);
    var events := [Subscribe(id, cb), Cancel, Finished(data), LoadFired];
    var c0 := New<B>(Request(Get, url), backend.baseOptions).value;
    var c1 := Subscribed<B>(backend, url, id, cb);
    var c2 := c1.(readyState := Cancelled, sub := Some(Subscription(id, cb, script, {})));
    var c3 := c2.(finished := true);
    var fx1 := SubscribeCalls<B>(id, cb, script.src);
    var fx2: seq<Effect<B>> := [RemoveListener(LoadSignal), RemoveListener(ErrorSignal), Cleanup(script)];
    var fx3: seq<Effect<B>> := [RemoveConnection(Some(id))];
    SubscribeStep<B>(backend, url, id, cb);
    assert Step(c1, Cancel) == (c2, fx2);
    assert Step(c2, Finished(data)) == (c3, fx3);
    assert Step(c3, LoadFired) == (c3, []);
    RunCons(c3, events[3..], c3, [], c3, []);
    RunCons(c2, events[2..], c3, fx3, c3, [] + []);
    RunCons(c1, events[1..], c2, fx2, c3, fx3 + ([] + []));
    RunCons(c0, events, c1, fx1, c3, fx2 + (fx3 + ([] + [])));
    LifecycleOfGet(backend, url, events, c3, fx1 + (fx2 + (fx3 + ([] + []))));
    assert fx1 + (fx2 + (fx3 + ([] + []))) == fx1 + (fx2 + fx3);
  }

  /** The handlers guard only against cancellation: a second `load` after
      completion releases the script again and emits the response again. */
  lemma LoadedTwice<B>(backend: Backend<B>, url: Utf16, id: Utf16, cb: Utf16, data: Option<Value>)
    ensures
      var resp := Next(Response(ResponseOptionsFor(backend.baseOptions, data)));
      var r := Lifecycle(backend, Request(Get, url), [Subscribe(id, cb), Finished(data), LoadFired, LoadFired]);
      && r.1 == SubscribeCalls<B>(id, cb, ScriptFor(url, cb).src)
                + [ RemoveConnection(Some(id)),
                    Cleanup(ScriptFor(url, cb)), resp, Complete,
                    Cleanup(ScriptFor(url, cb)), resp, Complete ]
  {
    var script := ScriptFor(url, cb);
    var events := [Subscribe(id, cb), Finished(data), LoadFired, LoadFired];
    var c0 := New<B>(Request(Get, url), backend.baseOptions).value;
    var c1 := Subscribed<B>(backend, url, id, cb);
    var c2 := c1.(finished := true, responseData := data);
    var c3 := c2.(readyState := Done);
    var fx1 := SubscribeCalls<B>(id, cb, script.src);
    var fx2: seq<Effect<B>> := [RemoveConnection(Some(id))];
    var fx3: seq<Effect<B>> := [Cleanup(script), Next(Response(ResponseOptionsFor(backend.baseOptions, data))), Complete];
    SubscribeStep<B>(backend, url, id, cb);
    assert Step(c1, Finished(data)) == (c2, fx2);
    assert Step(c2, LoadFired) == (c3, fx3);
    assert Step(c3, LoadFired) == (c3, fx3);
    RunCons(c3, events[3..], c3, fx3, c3, []);
    RunCons(c2, events[2..], c3, fx3, c3, fx3 + []);
    RunCons(c1, events[1..], c2, fx2, c3, fx3 + (fx3 + []));
    RunCons(c0, events, c1, fx1, c3, fx2 + (fx3 + (fx3 + [])));
    LifecycleOfGet(backend, url, events, c3, fx1 + (fx2 + (fx3 + (fx3 + []))));
    assert fx1 + (fx2 + (fx3 + (fx3 + []))) == fx1 + (fx2 + fx3 + fx3);
  }
}
