# go-cast channel multiplexer and command validator, in Dafny

This project models the channel multiplexer at the core of the go-cast remote-control client for Chromecast receivers. Each namespace (sub-protocol) on a connection has one `Channel`. The channel hands out request ids, keeps an in-flight table from request id to the waiter for its reply, and keeps an append-only list of passive listeners. Every inbound message passes four steps in order:

1. the addressing filter, which a `"*"` destination bypasses;
2. the header check, which drops a header with neither `type` nor `responseType`;
3. correlated delivery, which consumes the in-flight entry;
4. fan-out to every listener whose key matches.

The project also models the payload header record that requests are stamped with. It also models the argument validator and the `play` content-type default of the `cast` command-line tool.

Files:

- `wrappers.dfy`: module `Wrappers`, an `Option` type. It stands for a Go pointer that may be nil.
- `payload.dfy`: module `Payload`, the class `PayloadHeaders` with its setter and getter (net/payload.go).
- `channel.dfy`: module `Net`, the class `Channel` and the specification of fan-out (net/channel.go).
- `channel_scenarios.dfy`: module `ChannelScenarios`, properties that span several calls on one channel.
- `cast_cli.dfy`: module `CastCli`, the tables `MinArgs`/`MaxArgs`, `CheckCommand` and the `play` media item (cmd/cast/main.go).

How the source's mechanisms appear in the model:

- Each mutex-protected section is one atomic step.
- The write to the connection is a `connError: bool` parameter, meaning "the connection's `Send` returned an error".
- The waiter is the token `Waiter(id)`, standing for the one-shot Go channel made for request `id`.
- `Request` runs as far as its `select`. The reply branch of that `select` is `Message` returning `Routed(Some(Waiter(id)), …)`. The cancellation branch is `Channel.Cancel(id)`.
- A listener callback is a `CallbackId`. `Message` returns the indices of the listeners it calls, in the order it calls them.
- The float check on the volume level (`validateFloat(args[0], 0.0, 1.0)`) is the function parameter `inUnitRange: string -> bool`.

`Channel.Valid()` is the channel's invariant, and every method keeps it. It says three things:

- the ids handed out (ghost field `issued`) are exactly 1, 2, …, `requestId`;
- every in-flight key lies in 1..`requestId`;
- every in-flight key maps to the waiter made for that key.

So an id is never 0, never reused, and never already in the table when `Request` inserts it.

Two points where the code's behaviour is easy to misread; the model follows the code in both:

- Listener matching compares the key with `type` unconditionally (net/channel.go:71). So a listener registered under `""` fires for every header whose `type` is empty, for example one that has only a `responseType`.
- The in-flight table holds exactly `int` keys, and the reply's `requestId` must be present and non-zero to be looked up (net/channel.go:56). A negative id in a reply is looked up like any other id. It can never be found, because the channel only issues positive ids.

## Model

| member | source | states |
|---|---|---|
| `Payload.PayloadHeaders.SetRequestId` | net/payload.go:9-11 | afterwards `requestId` holds exactly the given id; `type` and `responseType` are unchanged |
| `Payload.PayloadHeaders.GetRequestId` | net/payload.go:13-15 | only defined when the id is set (the source dereferences the pointer unconditionally); returns the stored id |
| `Payload.SetRequestIdTwice` | net/payload.go:9-15 | last write wins: after setting `first` then `last`, the getter returns `last` and the other fields are untouched |
| `Net.Channel.constructor` | net/channel.go:35-44 | a fresh channel has the given identity triple, counter 0, an empty in-flight table, no listeners, and satisfies the invariant |
| `Net.Channel.Request` | net/channel.go:85-102 | the id is the previous counter + 1 (so ≥ 1), becomes the new counter and was never issued before; it is not already in flight; the payload is stamped with it (and so qualifies for correlation), other header fields untouched; if the send fails the table equals the table before the call, otherwise it gains exactly `id ↦ Waiter(id)`; listeners unchanged; invariant kept |
| `Net.Channel.Send` | net/channel.go:81-83 | the result is the connection's outcome; the channel's counter, table and listeners cannot change (no `modifies`) |
| `Net.Channel.Cancel` | net/channel.go:107-112 | exactly the entry for that id is removed (no-op if delivery already took it); every other entry, the counter and the listeners are unchanged |
| `Net.Channel.Message` | net/channel.go:46-75 | a message that fails the filter (destination not `"*"` and source/destination/namespace not the channel's peer/self/namespace) changes nothing and reaches no one; an untyped header likewise; otherwise the listeners called are exactly `MatchingIndices` of the listeners. A correlated id present in the table delivers to exactly its waiter and removes only that entry. Any other id leaves the table untouched. The counter and the listeners never change. |
| `Net.Addressed` | net/channel.go:47-49 | a `"*"` destination always passes; any other message passes only if it comes from the channel's peer, to the channel, on its namespace |
| `Payload.PayloadHeaders.Typed` | net/channel.go:51-54 | a header is usable exactly when `type` or `responseType` is non-empty |
| `Payload.PayloadHeaders.Correlated` | net/channel.go:56 | a header takes part in correlation exactly when its id is present and not 0 |
| `Net.Matches` | net/channel.go:71 | a listener whose key equals `type` always fires; when `responseType` is empty only that comparison counts; otherwise a match on a non-empty `responseType` is the only other way to fire |
| `Net.MatchingIndices` | net/channel.go:70-74 | the fan-out list is never longer than the listener list and names only existing listeners |
| `Net.Channel.FanOut` | net/channel.go:70-74 | the loop over listeners returns exactly `MatchingIndices(listeners, type, responseType)` |
| `Net.MatchingIndicesExact` | net/channel.go:70-74 | the fan-out lists only matching listeners, lists every matching listener, and is strictly increasing (registration order, none twice) |
| `Net.MatchingIndicesAppend` | net/channel.go:70-79 | appending a listener never changes which earlier listeners fire; the new one fires after them exactly when it matches |
| `Net.Channel.OnMessage` | net/channel.go:77-79 | appends exactly one listener at the end; table, counter and issued ids unchanged |
| `ChannelScenarios.ReplyConsumedOnce` | net/channel.go:56-68 | after a request, the first dispatch of its reply feeds exactly that request's waiter and the second reaches no waiter; the table ends as it began |
| `ChannelScenarios.CancelledReplyDropped` | net/channel.go:104-112 | after cancellation, a late reply reaches no waiter and leaves the table as before the request, while listeners still receive it |
| `ChannelScenarios.CancelIsolated` | net/channel.go:107-112 | of two outstanding requests, cancelling the first leaves the second in flight with its own waiter; ids strictly increase |
| `ChannelScenarios.StatusPushAnswersAndNotifies` | net/channel.go:56-74 | with a `"STATUS"` listener registered just before, one reply `{responseType: "STATUS", requestId: id}` both completes the pending request and fires exactly the earlier matching listeners followed by the new one |
| `CastCli.CheckCommand` | cmd/cast/main.go:185-209 | accepts exactly: `play` with 1 or 2 arguments; `pause`, `stop`, `quit` with none; `volume` with exactly one argument that passes the float check. Every accepted line is a table key with an argument count between its minimum and maximum. The `args[0]` read for `volume` is in bounds. |
| `CastCli.RejectionRules` | cmd/cast/main.go:185-197 | an unknown command (`status` and `script` included), too few arguments or too many arguments are each rejected |
| `CastCli.TablesAgree` | cmd/cast/main.go:169-183 | `MinArgs` and `MaxArgs` have the same keys and each minimum is at most its maximum |
| `CastCli.PlayItem` | cmd/cast/main.go:230-235 | the item's url is `args[0]` and its stream type is `"BUFFERED"`; the content type is `args[1]` when given, `"audio/mpeg"` otherwise |
| `CastCli.AcceptedPlayUsesAllArguments` | cmd/cast/main.go:190-197 | an accepted `play` line has the url argument `runCommand` reads, and every argument it has ends up in the media item |

## Left out

- Connection I/O: the socket, encryption, protobuf framing and JSON encoding of payloads live in files that are not part of this model. A send's outcome is a parameter.
- Goroutines, the mutex, the atomic counter and the `select`: each locked section is one atomic step, and cancellation is an explicit call to `Cancel`.
- The unbuffered hand-off of the reply to the waiter (net/channel.go:62). Its blocking means `Message` can wait forever if the requester has already given up. That is a concurrency effect, not logic.
- The deadline and context error that `Request` returns on cancellation. They are not modelled beyond removing the entry.
- What listener callbacks do. A callback is an opaque id. The model records that it was called, not what it did.
- Net.Channel.Request: does not model the width of the request id. The model counts without bound. The source keeps the counter in an int64 that wraps after 2^63−1 requests, and then converts it with `int(...)` (net/channel.go:86). On a 32-bit target that conversion keeps only the low 32 bits: the id turns negative after 2^31−1 requests and becomes 0 after 2^32. A 0 id counts as uncorrelated (net/channel.go:56), so the reply to that request would never be delivered.
- Log output (`log.Errorf`) and all `fmt.Printf` messages. Only the boolean results of the checks are kept.
- The float parsing inside `validateFloat`. It stands as the uninterpreted parameter `inUnitRange`.
- The rest of cmd/cast/main.go: `main`'s CLI setup, `connect`, `statusCommand`, `scriptCommand`'s stdin loop, and the controller calls in `runCommand`. All of them are I/O or calls into libraries that are not part of this model.
