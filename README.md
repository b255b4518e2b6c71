# k8mq core in Dafny

A model of the sequential core of k8mq, a small websocket message broker and its client. It has three parts:

- **The broker's que** (`Broker`, server/models/que.go). A list of admitted connections. Admission appends an entry. Each broadcast rebuilds the list: it writes the message as a text frame to every entry whose request context is still live, keeps exactly the entries whose write succeeded, in their original order, and logs one "client write failed" line for each of the others.
- **The client engine** (`ClientEngine`, client/client.go). Argument checks and the default port. The dial target `ws://<host>:<port>/que`. `connect` with at most 5 dials and exponential backoff. `NewMsg` on a FIFO of capacity 100. The send loop, which gives each message at most 5 write attempts, never writes while there is no connection, and logs and drops a message that fails every attempt.
- **The per-connection handler**, in two revisions:
  - `Handler` (server/handler_que.go);
  - `HandlerMain` (server/main/handler_que.go).

  `wssErr` classifies read errors as benign from fixed fragments that correspond to close codes 1000, 1005 and 1006 (section 7.4.1 of RFC 6455). `wssHandle` admits the connection, then reads frames until the first read error. It passes each text frame on, either to the server's reader or to a rebroadcast, and skips every other frame.

Outside inputs are parameters:

- whether a request context has ended (`live: Ctx -> bool`);
- the outcome of a broker write (`writeOk: WsConn -> bool`, one oracle per broadcast). It is keyed by the websocket handle, so two entries holding the same handle would share one outcome. Only a state the handlers never create has two such entries: each upgraded handle is admitted once (server/handler_que.go:61);
- the outcome of dial attempt i to a URL (`dial: (string, nat) -> Option<WsConn>`);
- the outcome of write attempt i of message k (`writeOk: nat -> (nat -> bool)`);
- the upgrade result and the successive `ReadMessage` results of a handler;
- the number of verbose flags (`verbosity`).

Sleeps are returned as their length in seconds. The handlers return their effects as a trace: admission, reader call, rebroadcast, info line, log line, close.

Supporting modules: `Types` (payload bytes, identities, Option/Result), `Seqs` (Filter, Pick, subsequence, distinctness, with their lemmas), `Text` (Go `strings.Contains` and Go `%d` rendering, with a parse-back round trip), `Wss` (frame, upgrade and effect types, the `Info`/`Warn` verbosity thresholds of models/config.go).

Some behaviour of the code that a reader might expect to be otherwise:

- `connect` returns an error after 5 failed dials, and `NewClient` then returns that error and no client (client/client.go:117-118, 182-183).
- A message that fails every write attempt is logged and dropped. It is never re-enqueued (client/client.go:79-84).
- The client's default port is 8080 (client/client.go:172). The server uses its own default, `models.DefaultPort` (server/server.go:132), and its command line defaults to 8088 (server/cmd/main.go:37).
- There is no table that matches requests to responses, and there is no cancellation signal beyond the request contexts.
- The two goroutines of the que read and write `list` without a lock. The model runs admissions and broadcasts as one sequential stream of calls.
- The `nil` checks at server/models/que.go:51 and :64 never fire in the code: `AddConnection` and `NewMsg` always send non-nil values (que.go:124-136), and `range` over a closed channel ends without yielding `nil`. The loops really end when `closeAndWait` closes the channels (que.go:91-92). `StopMonitorIn` and `StopMonitorMessages` model the end of each loop, whichever of the two causes it.

## Model

| member | source | states |
|---|---|---|
| Broker.QueConn.constructor | server/models/que.go:124-129 | an admitted entry holds the websocket and the request context it was admitted with |
| Broker.Que.constructor | server/models/que.go:146-159 | `NewQue` starts with an empty connection list and both loops running |
| Broker.Que.AddConnection | server/models/que.go:50-55 | admission appends one fresh entry at the end, all earlier entries unchanged; the list keeps no duplicates and never re-lists a dropped entry; after `monitorIn` stopped, nothing is listed |
| Broker.Que.StopMonitorIn | server/models/que.go:50-51 | `monitorIn` ends, on a nil connection or when `closeAndWait` closes its channel; later admissions are not listed |
| Broker.Que.NewMsg | server/models/que.go:63-85 | a broadcast makes the list exactly the live entries whose write succeeded, in original order, a subsequence of the old list; the entries logged as failed are `Failures`; the removed entries, failed ones included, join the dropped set and never appear again; after `monitorMessages` stopped nothing is written, logged or changed |
| Broker.Que.StopMonitorMessages | server/models/que.go:63-64 | `monitorMessages` ends, on a nil message or when `closeAndWait` closes its channel; later broadcasts are not processed: no write, no log line, the list unchanged |
| Broker.Rebuild | server/models/que.go:68-84 | the loop writes one type-1 frame with the message to each live entry, in list order and independent of earlier write outcomes; its new list is `Survivors` and the entries it logs as failed are `Failures` |
| Broker.Survivors | server/models/que.go:68-84 | the rebuilt list is a subsequence of the old list, no longer, and holds an entry exactly when it was listed, its context is live and its write succeeded |
| Broker.Failures | server/models/que.go:72-79 | an entry is logged as a failed write exactly when it is listed, its context is live and its write failed; the failures and the survivors together are exactly as many as the live entries |
| Broker.WriteToEveryLiveEntry | server/models/que.go:71-81 | every live entry is written to, whatever happened to the writes before it |
| Broker.WritesOnlyToLive | server/models/que.go:71-73 | every write is a text frame holding the message, sent to the connection of a live entry; expired entries get no write |
| ClientEngine.Configure | client/client.go:170-172 | an empty server URL is an error (`UrlRequired`) and nothing else is; port 0 becomes 8080; any other port is kept |
| ClientEngine.DialUrlRoundTrip | client/client.go:108 | the dial target `ws://host:port/que` reads back to exactly the host and port it was built from |
| Text.IntDecimalRoundTrip | client/client.go:108 | Go `%d` rendering of the port, parsed back, gives the port |
| ClientEngine.FirstSuccess | client/client.go:107-115 | the attempt a bounded retry stops at is the first successful one, or the bound when every attempt fails |
| ClientEngine.TotalBackoff | client/client.go:114 | after n failed attempts the sleeps 2^0 .. 2^(n-1) add up to 2^n - 1 seconds |
| ClientEngine.FullSchedule | client/client.go:76 | the dial loop and the write loop have the same schedule for 5 failures: 1, 2, 4, 8, 16 seconds, 31 in all |
| ClientEngine.Client.constructor | client/client.go:174-179 | a new client has the checked URL and port, is running, has no connection and no pending message |
| ClientEngine.Client.Connect | client/client.go:104-119 | at most 5 dials of the dial target; the first success is installed and nil is returned after k+1 attempts and k sleeps; after 5 failures the connection is untouched, 5 sleeps are taken and `NoResponse` is returned |
| ClientEngine.NewClient | client/client.go:170-193 | an empty URL fails with `UrlRequired` and no client; otherwise a client exists exactly when one of the 5 dials to the defaulted port succeeds, holding that connection, and a failed connect is returned as `NoResponse` with no client |
| ClientEngine.Client.NewMsg | client/client.go:159-163 | a message joins the back of the FIFO, which never holds more than 100 |
| ClientEngine.Client.WriteWithRetry | client/client.go:65-77 | at most 5 writes, each one the message on the current connection, none without a connection; the message is delivered exactly when there is a connection and an attempt succeeds, and the writes stop at that attempt; one 2^i-second sleep follows each attempt that did not succeed |
| ClientEngine.Client.MonitorMessages | client/client.go:55-86 | the FIFO is drained in order; the sent messages and the logged failures split the queue with nothing lost or repeated, the sent ones in enqueue order; no message is re-enqueued |
| ClientEngine.StableConnectionDeliversInOrder | client/client.go:59-73 | on a connection whose first write succeeds for every message, every message is sent once, in enqueue order, and none is logged as failed |
| ClientEngine.NoConnectionDeliversNothing | client/client.go:65-84 | without a connection every pending message is logged and dropped, and none is sent |
| Text.ContainsIff | server/handler_que.go:23 | the substring search finds a fragment exactly when it occurs at some position of the error text |
| Wss.CloseFragments | server/handler_que.go:23-33 | the three close fragments are the close-error texts of status codes 1000, 1005 and 1006 |
| Handler.WssErr | server/handler_que.go:22-41 | a benign error produces nothing; any other produces exactly one warning line, and only when at least one verbose flag is set |
| Handler.BenignCloseCodes | server/handler_que.go:23-33 | close errors with status 1000, 1005 or 1006 are benign whatever text follows, and are not logged |
| Handler.BenignClosedConnection | server/handler_que.go:35-37 | an error holding "use of closed network connection" anywhere is benign and not logged |
| Handler.GoingAwayIsLogged | server/handler_que.go:22-40 | a close with status 1001, followed by any text that is not itself benign, is not benign; it is warned about exactly when at least one verbose flag is set |
| Handler.WssHandle | server/handler_que.go:44-81 | the handler's loop, with its `continue` and `break`, produces exactly the effects of `Handle` |
| Handler.UpgradeFailureNotAdmitted | server/handler_que.go:52-56 | after an upgrade failure nothing is admitted and nothing is passed on |
| Handler.AdmittedOnceFirst | server/handler_que.go:60-65 | an upgraded connection is admitted exactly once, as the first effect, before any frame has an effect |
| Handler.ForwardsTextFrames | server/handler_que.go:64-80 | the payloads passed on are exactly those of the text frames read before the first read error, in order; non-text frames are skipped |
| Handler.ReaderOrRebroadcast | server/handler_que.go:75-79 | with a reader set nothing is rebroadcast; without one nothing goes to a reader |
| Handler.ErrorEndsLoop | server/handler_que.go:65-69 | frames after the first read error have no effect |
| HandlerMain.WssErr | server/main/handler_que.go:23-38 | a benign error produces nothing; any other is logged, whatever the verbosity |
| HandlerMain.BenignCloseCodes | server/main/handler_que.go:24-30 | close errors with status 1005 or 1006 are benign whatever text follows |
| HandlerMain.NormalClosureDiffers | server/main/handler_que.go:23-37 | a normal closure (1000), followed by any text this revision does not itself ignore, is not benign here and is logged whatever the verbosity, while the newer revision ignores it |
| HandlerMain.BenignRevisions | server/main/handler_que.go:23-37 | every error this revision ignores the newer one ignores too; of the errors this revision logs, the newer one ignores exactly those holding the 1000 fragment |
| HandlerMain.WssHandle | server/main/handler_que.go:41-74 | the handler's loop, with its `continue` and `break`, produces exactly the effects of `Handle` |
| HandlerMain.UpgradeFailureNotAdmitted | server/main/handler_que.go:49-53 | an upgrade failure is logged, and nothing is admitted or passed on |
| HandlerMain.AdmittedOnceFirst | server/main/handler_que.go:58-62 | the connection is admitted exactly once, as the first effect, and no frame goes to a reader |
| HandlerMain.RebroadcastsTextFrames | server/main/handler_que.go:70-72 | exactly the text frames read before the first read error are rebroadcast, in order; other frames are skipped |
| HandlerMain.ErrorEndsLoop | server/main/handler_que.go:62-66 | frames after the first read error have no effect |
| HandlerMain.SameForwardingWithoutReader | server/main/handler_que.go:70-72 | without a reader both revisions pass on the same payloads for the same frames |

## Left out

- Broker.Que.StopMonitorIn: after `closeAndWait` has closed the channels, a later `AddConnection` sends on a closed channel and panics in its caller (que.go:125). The model's `AddConnection` instead returns a fresh entry that is not listed. After the nil `break`, which never fires, a later send would instead block once the channel's 10 buffered slots are full (que.go:151); that is not modelled either.
- Broker.Que.StopMonitorMessages: after `closeAndWait`, a later `NewMsg` panics in its caller (que.go:134). The model's `NewMsg` instead returns no writes and no failures and leaves the list unchanged. Blocking after the nil `break`, once 10 messages are buffered (que.go:152), is not modelled either.
- Goroutines, channels and the WaitGroup. Each channel send and the loop iteration that receives it are one call. The data race on `list` between `monitorIn` and `monitorMessages` is not modelled.
- `Close(timeout)` of the client and of the que, and `closeAndWait`. Their result depends on a race between draining and a timer. The `running` flag is set at construction and nothing else reads or clears it.
- The client read loop (`read`). It uses `io.ReadAll` on a websocket, so its behaviour is defined by the transport. Its reconnect-on-error rule is therefore not modelled either.
- Real sleeping and the `math.Pow` float conversion. Delays are the integers 2^i.
- The Dial origin string and subprotocol. The text of the last dial error, which `connect` wraps, is not kept.
- ClientEngine.Client.NewMsg: a full channel blocks the caller. This is modelled as the precondition that fewer than 100 messages are pending.
- ClientEngine.Client.MonitorMessages: the connection is fixed for a whole drain. The source re-reads `conn` at every attempt, so a concurrent reconnect in the read goroutine could change it between attempts; that is not modelled.
- Log line formatting: the info line carries the frame type and payload as data, not as formatted text. The stack lines printed by `StackTrace` are not modelled.
- server/server.go (HTTP server lifecycle, port default, nil guard), server/main/main.go, server/cmd/main.go, server/cmd/routes.go (flags, signals, health routes). Outside the core.
- `ParseConfig` of server/models/config.go (file I/O and JSON decoding), models/logging.go and the rest of server/models/stack.go. Outside the core.
- client/client_test.go. It calls `NewClient` with a different signature and needs a live server.
