# JSONP connection model

A Dafny model of Angular 2's JSONP transport (`jsonp_backend.ts`): the
`JSONPConnection` that fetches a cross-origin resource by injecting a
`<script>` element whose URL names a generated global callback, and the
`JSONPBackend` factory that creates such connections.

The model has two parts.

- **Callback-URL rewriting** (`CallbackUrl`, on top of `JsString`). The
  placeholder `=JSONP_CALLBACK&` (first occurrence) becomes `=<cb>&`;
  otherwise a trailing `=JSONP_CALLBACK` becomes `=<cb>`; otherwise the URL
  is kept. `JsString` represents a JavaScript string as its sequence of
  UTF-16 code units, so lengths and indices count code units as `length`
  does, and gives `indexOf`, `lastIndexOf`, `substring` and `replace` their
  JavaScript meaning (-1 for "absent", clamping of negative `substring`
  indices, only the first match replaced). This is what makes the suffix
  test's quirk visible: for a URL of 14 code units, `lastIndexOf` returns
  -1, which equals `14 - 15`. The suffix branch then runs and
  `substring(0, -1)` is empty, so the rewritten URL is just `=<cb>`. The
  rewrite is proved equal, on every other URL, to the regular-expression
  replacement named in the code's own comment, read as
  `url.replace(/=JSONP_CALLBACK(&|$)/, '=<cb>$1')`: the match is replaced and
  the delimiter after it, `&` or nothing, is kept. (The comment writes the
  replacement as just the generated name; kept literally, that would drop
  the `=` and the `&`, which the code evidently does not intend.)
- **The connection lifecycle** (`JsonpConnection`, `JsonpBackend`). The
  connection is an immutable record: `readyState` (with `Unset` before
  subscription), the `_finished` flag, `_responseData`, and the subscription
  (request id, callback name, script, attached listeners). The host's
  asynchronous callbacks become an arbitrary sequence of events: subscribe,
  `finished(data)`, the `load` signal, the `error` signal, and cancel (the
  unsubscribe teardown). One pure step function per event returns the new
  record and the ordered list of calls made, both on the `BrowserJsonp`
  service (`nextRequestID`, `exposeConnection`, `requestCallback`, `build`,
  `send`, `cleanup`, `removeConnection`) and on the script's listeners and
  the response observer (`next`, `complete`, `error`). Nothing assumes that
  `finished` comes before `load`.

The model follows the code, including where a reader might expect more
(for example, `removeConnection` on every path):

- `removeConnection` is called only from `finished`, once per call. On the
  no-callback, script-error and cancel paths it is never called.
- The `load` and `error` handlers guard only against `Cancelled`. A second
  signal after `Done` releases the script again and emits again
  (`JsonpBackend.LoadedTwice`).
- Cancel runs the teardown each time it is delivered.

The delivered payload and the error event are opaque values (`Value`), only
passed along. Merging with the base response options is kept symbolic:
`Merged(base, WithBody(data))` stands for `base.merge(new ResponseOptions({body: data}))`.

## Model

| member | source | states |
|---|---|---|
| JsString.IndexOf | modules/angular2/src/http/backends/jsonp_backend.ts:43 | -1 exactly when the pattern does not occur, otherwise the leftmost occurrence |
| JsString.LastIndexOf | modules/angular2/src/http/backends/jsonp_backend.ts:45 | -1 exactly when the pattern does not occur, otherwise the rightmost occurrence |
| JsString.Substring | modules/angular2/src/http/backends/jsonp_backend.ts:47 | the slice for in-range indices; empty when both indices are at most 0, which is how `substring(0, -1)` behaves |
| JsString.ReplaceFirst | modules/angular2/src/http/backends/jsonp_backend.ts:44 | only the leftmost occurrence is replaced, and the text before and after it is kept; without an occurrence the string is unchanged |
| CallbackUrl.RewriteCases | modules/angular2/src/http/backends/jsonp_backend.ts:42-48 | the first `=JSONP_CALLBACK&` becomes `=cb&` and the rest of the URL is kept; without it, a trailing `=JSONP_CALLBACK` becomes `=cb`; otherwise the URL is unchanged unless it has 14 UTF-16 code units, in which case the result is `=cb` |
| CallbackUrl.RewriteMatchesReference | modules/angular2/src/http/backends/jsonp_backend.ts:39-48 | on every URL whose length is not 14 UTF-16 code units, the rewrite equals the regular-expression replacement `/=JSONP_CALLBACK(&\|$)/` → `=cb$1`: the first placeholder followed by `&` or the end becomes `=cb`, the delimiter kept |
| CallbackUrl.RewriteQuirkWitness | modules/angular2/src/http/backends/jsonp_backend.ts:45-47 | the URL `http://x.io/?a` (14 code units) with callback `cb` is rewritten to `=cb`, while the regular-expression replacement would leave it unchanged |
| CallbackUrl.RewriteQuirkCountsCodeUnits | modules/angular2/src/http/backends/jsonp_backend.ts:45-47 | the quirk counts UTF-16 code units: `http://x/?😀ab` (13 characters, 14 code units) is rewritten to `=cb`, while `http://x/?😀abc` (14 characters, 15 code units) is kept |
| CallbackUrl.RewriteIntended | modules/angular2/src/http/backends/jsonp_backend.ts:42-48 | with the suffix test also demanding an occurrence, a URL with neither placeholder form is always unchanged |
| CallbackUrl.RewriteIntendedMatchesReference | modules/angular2/src/http/backends/jsonp_backend.ts:39-48 | the corrected rewrite equals the regular-expression replacement on every URL |
| JsonpConnection.New | modules/angular2/src/http/backends/jsonp_backend.ts:26-31 | construction succeeds exactly for GET requests; otherwise it throws the type error "JSONP requests must use GET request method."; a new connection is unsubscribed, not finished and holds no data |
| JsonpConnection.OnSubscribe | modules/angular2/src/http/backends/jsonp_backend.ts:32-80 | subscribing sets `Loading`, registers the connection under the new id before requesting the callback name, builds the script from the rewritten URL, attaches both listeners and sends it; nothing is emitted or released |
| JsonpConnection.OnFinished | modules/angular2/src/http/backends/jsonp_backend.ts:94-100 | every call marks the callback as invoked and calls `removeConnection` with the current id (`undefined` before subscription); the data is kept only when not cancelled; nothing else changes |
| JsonpConnection.OnLoad | modules/angular2/src/http/backends/jsonp_backend.ts:52-68 | without a listener, or when cancelled, nothing happens; otherwise `Done`, `cleanup(script)` first, then the type error if `finished` never ran, else one `next` with the data as body followed by `complete` |
| JsonpConnection.OnError | modules/angular2/src/http/backends/jsonp_backend.ts:70-75 | without a listener, or when cancelled, nothing happens; otherwise `Done`, `cleanup(script)`, and the received error forwarded unchanged, with no `next` or `complete` |
| JsonpConnection.OnCancel | modules/angular2/src/http/backends/jsonp_backend.ts:82-90 | the teardown sets `Cancelled`, removes the load and error listeners and calls `cleanup(script)`, and emits nothing; before subscription there is no teardown |
| JsonpConnection.Step | modules/angular2/src/http/backends/jsonp_backend.ts:32-100 | every event keeps the connection in a reachable state; only `finished` calls `removeConnection`, once; any observer call in a step comes after that step's `cleanup` |
| JsonpConnection.Run | modules/angular2/src/http/backends/jsonp_backend.ts:94-100 | over any event sequence, reachable states stay reachable and `removeConnection` is called exactly as many times as `finished` is |
| JsonpConnection.SignalsWhileCancelledAreInert | modules/angular2/src/http/backends/jsonp_backend.ts:52-75 | while cancelled, any sequence of load and error signals changes nothing and makes no call |
| JsonpConnection.SignalsAfterCancelAreInert | modules/angular2/src/http/backends/jsonp_backend.ts:82-90 | after the teardown of a subscribed connection, load and error signals change nothing and make no call |
| JsonpConnection.CancelIsFinal | modules/angular2/src/http/backends/jsonp_backend.ts:52-100 | once cancelled, any events other than another cancel leave the state `Cancelled` with the same subscription and data, and every call they cause is `removeConnection` |
| JsonpConnection.CleanupPrecedesStreamEvents | modules/angular2/src/http/backends/jsonp_backend.ts:54-74 | over any event sequence, every `next`, `complete` or `error` is preceded by a `cleanup` |
| JsonpBackend.CreateConnection | modules/angular2/src/http/backends/jsonp_backend.ts:109-111 | the factory yields a fresh connection bound to the backend's base options exactly for GET requests, and the type error otherwise |
| JsonpBackend.Lifecycle | modules/angular2/src/http/backends/jsonp_backend.ts:26-30 | a non-GET request fails construction and no call at all is made, whatever events follow; a GET connection stays reachable and calls `removeConnection` once per `finished` |
| JsonpBackend.DeliveredThenLoaded | modules/angular2/src/http/backends/jsonp_backend.ts:54-67 | subscribe, callback, load: one `removeConnection`, one `cleanup`, then one `next` with the merged body and `complete` |
| JsonpBackend.LoadedWithoutCallback | modules/angular2/src/http/backends/jsonp_backend.ts:54-58 | subscribe, load: one `cleanup`, then the "did not invoke callback" type error; `removeConnection` is never called |
| JsonpBackend.ScriptFailed | modules/angular2/src/http/backends/jsonp_backend.ts:70-75 | subscribe, error: one `cleanup`, then the error event itself; `removeConnection` is never called |
| JsonpBackend.CancelledThenLate | modules/angular2/src/http/backends/jsonp_backend.ts:82-100 | subscribe, cancel, callback, load: both listeners removed and one `cleanup`; the late callback still unregisters but its data is dropped; no observer call |
| JsonpBackend.LoadedTwice | modules/angular2/src/http/backends/jsonp_backend.ts:52-68 | a second load after `Done` runs the handler again: a second `cleanup`, `next` and `complete` |

## Findings

| source | as written | input that shows it | evidently intended | confidence | as-written member | corrected member |
|---|---|---|---|---|---|---|
| modules/angular2/src/http/backends/jsonp_backend.ts:45-47 | the suffix test `lastIndexOf('=JSONP_CALLBACK') === url.length - 15` also holds when the placeholder is absent and the URL has 14 UTF-16 code units (-1 equals 14 - 15); `substring(0, -1)` then drops the whole URL | URL `http://x.io/?a`, callback `cb`: the script URL becomes `=cb` | a URL without the placeholder is left unchanged, as the regular expression in the comment at line 40 would do | high; not executed | CallbackUrl.RewriteQuirkWitness | CallbackUrl.RewriteIntendedMatchesReference |

The connection model keeps the as-written `CallbackUrl.Rewrite`, since it
describes what the connection does; `CallbackUrl.RewriteIntended` is the
corrected definition.

## Left out

- RxJS `Observable` semantics are not modelled; subscribe and cancel are explicit events. A second `Subscribe` on an already subscribed connection is ignored, although the cold observable would run the subscribe body again with a fresh id and script.
- Whether RxJS runs the teardown after `complete` or `error`, or more than once, is decided by the event sequence: each `Cancel` event is one run of the teardown.
- `BrowserJsonp` (`nextRequestID`, `exposeConnection`, `requestCallback`, `build`, `send`, `cleanup`, `removeConnection`) is not part of this model: its calls are recorded in the trace, and the id and callback name it returns are inputs of `Subscribe`. Their uniqueness is not modelled.
- JsonpConnection.OnCancel: `build` is taken to return an element, so the `isPresent(script)` test always holds and the case of an absent script is not modelled.
- Exceptions thrown by the collaborators (for example `build` or `addEventListener` failing) are not modelled.
- `ResponseOptions`, `BaseResponseOptions.merge` and `Response` are not part of this model: merge is the uninterpreted constructor `Merged`, and a response just wraps its options.
- `StringWrapper` is not part of this model: its `replace` and `substring` are taken to be JavaScript's `String.prototype.replace` with a string pattern and `String.prototype.substring`.
- JsString.ReplaceFirst: `$` replacement patterns (such as `$&`) in the callback name are not interpreted; the callback name is inserted literally.
- `makeTypeError` is modelled as the `TypeError` value carrying its message; the message is plain text, not a sequence of code units, since nothing measures or searches it.
- The `@Injectable()` decorator, the imports, and the event object passed to the `load` listener carry no behaviour and are left out.
- Real asynchrony and event-loop ordering are not modelled: any event order is allowed.
