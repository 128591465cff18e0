# realtime-chat: the connection hub and the ingestion pipeline in Dafny

This project models the core of a Go chat relay.

Clients connect over a WebSocket. Each connection gets a `Client` with a send channel of 256 slots, and the client is registered with the `Hub`. The hub's control loop owns the table of active clients. It handles three kinds of request one at a time:
- **Register** puts a client into the table.
- **Unregister** removes a client and closes its channel, but only if the client is in the table.
- **Broadcast** offers a payload to every client in the table without blocking. A client whose channel is full is evicted and its channel closed.

Each connection runs two loops:
- The **reader** decodes each frame and builds a record with a fresh id. It saves the record to the database, produces it to Kafka and caches it in Redis. It then hands the original frame bytes to the hub. Any failure skips the rest of that frame, and a read error ends the session.
- The **writer** drains the send channel onto the socket in order. It sends a close frame when the channel is closed and stops after a failed write. On every return it closes the connection.

Besides the WebSocket path there are three more pieces:
- **`POST /send-message`** caches a submission for ten minutes under the key `message-<nanosecond timestamp>`, then produces it to Kafka.
- **`GET /messages`** lists the keys matching `message-*` and returns the entries that can be read and decoded.
- **A Kafka consumer** processes each fetched entry: it decodes the entry, generates an id and saves it. It commits the entry only when processing succeeded.

## How the model is built

- **`hub.dfy`** models the hub.
  - The steps are pure functions on a `HubState`: the active set, plus the channel of every client ever registered. Each channel holds its items and a closed flag.
  - The class `Hub` updates these fields in place. Each of its methods is proved equal to its step function.
  - The writer's receive on its channel is a fourth kind of step.
  - An `Execution` is a sequence of states linked by steps. Per-client FIFO order is proved over executions.
- **`session.dfy`** models the reader loop and the writer loop.
  - Both are methods with `while` loops over the socket's inputs. Each is proved equal to a specification function, and the lemmas are about those functions.
- **`consumer.dfy`** models `processMessage` as a function and `startConsumer` as a method with a loop. The loop runs over a finite sequence of fetches.
- **`handlers.dfy`** models three things:
  - `SendMessage` as a short-circuit function;
  - the decimal cache key, with a parser that reads the timestamp back;
  - `GetMessages` as a method with a filter loop.

Everything outside the program is an input: the JSON codecs, the UUID generator, the clock, and the outcome of every database, Redis, Kafka and socket call. Decoders are partial functions, and each backend call comes with its outcome.

## Model

| member | source | states |
|---|---|---|
| Hub.RegisterStep | internal/websockets/hub.go:18-22 | The new client enters the table with an empty, open channel. The invariant is kept. Every other client's membership and channel are unchanged. |
| Hub.UnregisterStep | internal/websockets/hub.go:23-29 | A client in the table is removed and its channel closed, with its items kept. A client not in the table leaves the state unchanged. Nothing else changes, and the invariant is kept. |
| Hub.BroadcastStep | internal/websockets/hub.go:31-41 | A registered client with room gets the payload at the end of its channel and stays. A registered client with a full channel is removed, its channel closed, and it gets nothing. Unregistered channels are untouched. No channel exceeds 256 items. |
| Hub.ReceiveStep | internal/websockets/client.go:86-95 | The writer takes the oldest item first. It sees closure only once the channel is empty. The table is unchanged. |
| Hub.Step | internal/websockets/hub.go:15-46 | Every event keeps the invariant: registered channels are open, no channel exceeds 256 items, and every client in the table has a channel. Channels are never forgotten. |
| Hub.StepFrozen | internal/websockets/hub.go:26-28 | A client outside the table stays outside. Its channel gains nothing, and its writer only drains what is there. |
| Hub.StepOrder | internal/websockets/hub.go:31-40 | For a registered client, what the writer took plus what the channel holds grows by exactly the broadcast payload while the client stays registered. The same quantity does not change when the client is evicted or unregistered. |
| Hub.Frozen | internal/websockets/hub.go:23-40 | Once a client is removed, it never re-enters the table along an execution. Its channel only drains. |
| Hub.PerClientOrder | internal/websockets/hub.go:31-36 | Along an execution, a client's taken items followed by its queued items are its initial items followed by a prefix of the broadcast payloads, in broadcast order. While the client is registered, they are all the payloads. |
| Hub.UnregisterIdempotent | internal/websockets/hub.go:26 | A second unregister of the same client changes nothing, so its channel is not closed twice. |
| Hub.Hub.constructor | internal/websockets/hub.go:6-12 | The hub starts with an empty table and no channels. |
| Hub.Hub.Register | internal/websockets/hub.go:18-22 | Updates the table in place exactly as `RegisterStep`. |
| Hub.Hub.Unregister | internal/websockets/hub.go:23-29 | Updates in place exactly as `UnregisterStep`. Unregistering an absent client changes nothing. |
| Hub.Hub.Broadcast | internal/websockets/hub.go:31-41 | Loops over the table, deleting while ranging. It ends in the state `BroadcastStep` describes. |
| Hub.Hub.Receive | internal/websockets/client.go:86-95 | Takes from the channel in place exactly as `ReceiveStep`. |
| Session.FrameActions | internal/websockets/client.go:37-77 | An undecodable frame causes no action. A decoded frame runs save, produce, cache and hand-to-hub in that order, up to and including the first failing step. The hub gets the frame if and only if all three backend steps succeed. Every step carries the same record. |
| Session.HandleFrame | internal/websockets/client.go:37-77 | One iteration of the reader, with early `continue`s. Its result is `FrameActions`. |
| Session.Read | internal/websockets/client.go:24-79 | The reader loop produces `ReaderActions`. |
| Session.ReaderRelaysRawFrames | internal/websockets/client.go:31-77 | What reaches the hub is exactly the raw bytes of the frames that passed every step, in reading order, up to the first read error. |
| Session.FrameHubPayloads | internal/websockets/client.go:58-77 | For one frame, the payload reaches the hub if and only if decoding, saving, producing and caching all succeed. |
| Session.ReadErrorEndsSession | internal/websockets/client.go:25-35 | A read error ends the session with unregister and then close, as the last two actions. Without a read error, neither action appears. |
| Session.Write | internal/websockets/client.go:82-103 | The writer loop produces `WriterFrames`: text frames in receive order, one close frame on closure, a stop after a failed write, and the deferred close of the connection on each of the two returns. |
| Session.ClosedFrames | internal/websockets/client.go:87-94 | When the first receipt is the closure of the channel, the writer sends a close frame, closes the connection and consumes that one receipt. |
| Session.FailedFrames | internal/websockets/client.go:96-100 | When the write of the first received payload fails, that payload is the only text frame, and the connection is closed after it. |
| Session.WrittenFrames | internal/websockets/client.go:96-101 | A payload written successfully becomes one text frame, and the writer goes on to the next receipt. |
| Session.WriterKeepsOrder | internal/websockets/client.go:86-100 | The text frames' payloads are a prefix of the received items, in receive order. |
| Session.WriterWritesUntilStop | internal/websockets/client.go:82-103 | The text frames' payloads are exactly the received items up to and including the receipt that makes the writer return: a closure or a failed write. With no such receipt, they are all the received items. |
| Session.CloseFrameOnClosure | internal/websockets/client.go:87-94 | A close frame is sent if and only if the receipt that makes the writer return is the closure of the channel. |
| Session.ConnectionClosedOnReturn | internal/websockets/client.go:83-100 | The connection is closed if and only if some receipt makes the writer return. |
| Session.CloseFrameIsLast | internal/websockets/client.go:83-94 | A close frame is the next-to-last action and is followed by the close of the connection. When the connection is closed, that is the last action. |
| Session.SocketSeesBroadcastOrder | internal/websockets/client.go:82-103 | For a client registered with an empty channel, the socket sees a prefix of the broadcast payloads, in broadcast order. |
| Consumer.ProcessMessage | cmd/main.go:134-158 | A decode failure returns before an id is generated or a save attempted. An id failure returns before saving. Success holds exactly when decode, id and save all succeed. The saved row carries the new id and the request's fields. |
| Consumer.RedeliveryInsertsAgain | cmd/main.go:143-155 | The row id comes from the UUID generator and not from the entry. The same entry processed twice is saved as two rows with equal fields and different ids. |
| Consumer.Consume | cmd/main.go:161-196 | The consumer loop produces `ConsumerLog`. |
| Consumer.CommitOnlyAfterSave | cmd/main.go:185-194 | Every commit attempt directly follows the successful processing of the same offset. Every successful processing is directly followed by that commit attempt. |
| Consumer.EveryFetchedEntryHandled | cmd/main.go:178-195 | Every entry fetched before a fetch error is processed, in order, whatever failed before it. A fetch error is the last event and no commit follows it. Without a fetch error nothing is fatal. |
| Consumer.CommitsAreSavedEntries | cmd/main.go:185-191 | The offsets with a commit attempt are exactly those of the successfully processed entries, in fetch order. |
| Consumer.CommitsMoveForward | cmd/main.go:185-191 | If the partition delivers strictly increasing offsets, the committed offsets strictly increase. |
| Handlers.CacheKey | cmd/main.go:89 | The key is `message-` followed by the non-empty `%d` rendering of the timestamp. |
| Handlers.NatToDecimal | cmd/main.go:89 | `%d` of a non-negative number is a non-empty digit string. It starts with `0` only for zero. |
| Handlers.CacheKeyRoundTrip | cmd/main.go:89 | The timestamp can be parsed back from `message-<%d of the timestamp>`. |
| Handlers.CacheKeyInjective | cmd/main.go:89 | Two cache keys are equal if and only if their timestamps are. |
| Handlers.CacheKeyListed | cmd/main.go:89-107 | Every key the send handler writes matches the read endpoint's `message-*` pattern. |
| Handlers.SessionKeysNotListed | internal/redis/redis.go:42 | No key of the form `message:<id>`, used by the WebSocket path, matches `message-*`. |
| Handlers.SendMessage | cmd/main.go:80-103 | Invalid body: 400 with no backend write. Otherwise the cache write of the re-encoded request, under the timestamp key with a 600000000000 ns TTL, comes first. A cache failure gives 500 and Kafka is not attempted. A Kafka failure gives 500. The reply is 200 if and only if both writes succeed. Kafka gets the same bytes under `chat-key`. |
| Handlers.Reply | cmd/main.go:106-131 | The status is 200 if and only if the key listing succeeded. A failed listing gives status 500 with the listing error message. Otherwise the body is the encoding of the messages. |
| Handlers.GetMessages | cmd/main.go:106-131 | A failed key listing gives the failure outcome and its 500 reply. Otherwise the result is `Window` of the listed keys, and the reply carries their encoding. |
| Handlers.WindowMember | cmd/main.go:114-124 | A message is returned if and only if some listed key reads successfully and decodes to it. |
| Handlers.WindowLength | cmd/main.go:114-124 | There is at most one message per key, and exactly one per key when every key is readable and decodable. |
| Handlers.WindowAppend | cmd/main.go:114-124 | Key order is kept: the listing of `a + b` is the listing of `a` followed by that of `b`. |
| Handlers.CachedSubmissionListed | cmd/main.go:89-124 | While its cache entry lives, a submission accepted by the send handler is returned by the read endpoint. This assumes the key listing is faithful and JSON round-trips. |

## Left out

- Goroutines, channel blocking and `sync.Mutex` are not modelled. Hub events, including the writer's receives, form one serialized trace, and a receive is only taken when it would not block.
- Hub.Hub.Register requires a fresh client. Every `*Client` is newly allocated with an empty 256-slot channel (internal/websockets/websockets.go:28-34), so re-registering a client that is already known is not modelled.
- Closing a closed channel panics in Go. The model makes it a precondition of `CloseQueue`, so every close is proved to happen at most once rather than modelled as a crash.
- Socket I/O, JSON encoding and decoding, UUID generation, RFC 3339 timestamps and the clock are inputs to the model. The WebSocket framing of the close frame is not modelled.
- The Postgres, Redis and Kafka clients (internal/database/db.go, internal/redis/redis.go, internal/kafka/producer.go) are success/failure outcomes.
  - The `ON CONFLICT (message_id) DO NOTHING` clause of the insert (internal/database/db.go:66) never applies on the paths modelled here. Both the consumer and the WebSocket reader insert under a freshly generated id, so a redelivered entry or a repeated frame is inserted again as a new row (`RedeliveryInsertsAgain`).
  - The key `message:<id>` under which the reader caches is modelled only through `SessionKeysNotListed`.
- Cache expiry after the 10-minute TTL is not modelled. The TTL is recorded on the cache write, and reads take what the cache returns.
- Session.Read: a sequence of reads that runs out without a read error stands for a session that is still reading. The deferred unregister and close appear only after a read error.
- The second unregister sent after `Read` returns (internal/websockets/websockets.go:44) is not part of the session model. `UnregisterIdempotent` shows that it changes nothing.
- Consumer.Consume: Kafka's redelivery is not modelled. The loop is run over any finite sequence of fetches. The code guarantees only that a failed entry is not committed, not that the same entry comes back next.
- The reply for an encoding failure in `GetMessages` (cmd/main.go:127-130) and the `Content-Type` header are not modelled. An empty result is encoded by Go as JSON `null`, because the slice is nil when nothing was appended. The model returns the empty sequence.
- The source calls `db.SaveMessage` and `NewKafkaProducer` with signatures that differ from their definitions in other files. Saves and produces are abstract steps, so these are not reconciled.
- A cache key is derived from the send time (cmd/main.go:89), not from the message id. The model follows the code.
- Logging (`log.Printf`, `log.Println`, `log.WithError`, `fmt.Printf`, `fmt.Println`) is not modelled. The one `log.Fatal` in the consumer loop (cmd/main.go:181) is kept, as the `Fatal` event.
- Start-up and configuration in `main` (cmd/main.go:25-71) are not modelled.
