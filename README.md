# Nebula core in Dafny

This is a model of three parts of the Nebula broadcast automation backend, with proofs about them.

- **The websocket notification bus** (`websocket.dfy`, module `Websocket`).
  - A `Client` class holds one connection: its topics, whether it is authorized or disconnected, its user, and the frames written to its socket.
  - A `Messaging` class holds the registry of connections, keyed by id, in insertion order.
  - One call of `Messaging.Step` is one iteration of the delivery loop:
    - an idle read may turn into a heartbeat;
    - a bus record is decoded into its five-field envelope;
    - a snapshot of the registry is offered the message, so each client gets at most one copy;
    - `purge` then closes and removes the invalid connections.
- **The channel rundown** (`rundown.dfy`, module `Rundown`).
  - `get_rundown` is a method with the source's single loop over the query's records.
  - The helper methods `OpenEvent` and `AppendItem` are the two halves of the loop body.
  - The method is proved equal to a fold `Build` over the records.
  - Lemmas about `Build` state:
    - row numbering;
    - the scheduled and broadcast clocks;
    - the status priority chain;
    - the in-place update of the last event row;
    - that every event's final duration is the sum of its non-skipped items.
- **Object metadata and the full-text index** (`objects.dfy`, module `BaseObjects`).
  - `create_ft_index` is a method with the same loops. Its result is proved to be the unique max-weight index of the words produced by the subclip titles (weight 8) and by the indexed keys.
  - The `BaseObject` class holds the metadata map. `__setitem__`, `update` and `from_untrusted` are methods that mutate it. Each is specified by a pure function (`Assigned`, `Patched`) whose properties are proved as lemmas.
  - The read side (`__getitem__`, `get`, `id`) consists of pure functions over the metadata map.

`wrappers.dfy` defines `Option`, and `Result` for raised exceptions. `json.dfy` defines decoded JSON values and Python truthiness.

Things the code receives from outside become parameters:

- the clock (`now`);
- the session check's answer;
- the outcome of each socket write and close;
- the bus read;
- the channel settings;
- the date parser;
- the run log and the pending transfers;
- the records the SQL query yields;
- `parse_durations`, `slugify`, `normalize_meta`;
- the metatype table (`settings.metatypes`);
- `int()` on a string.

For `slugify` and `normalize_meta`, a `None` result stands for the exception they raise.

## Model

| member | source | states |
|---|---|---|
| Websocket.Subscriptions | backend/server/websocket.py:38 | The wildcard alone when it is requested. Otherwise a topic is subscribed iff it was requested or is always-on. The wildcard is subscribed iff it was requested. |
| Websocket.SubscriptionsMatch | backend/server/websocket.py:14-38 | After a successful authorization, a string topic is delivered iff a requested topic is the wildcard or a prefix of it, or the always-on topic `server.started` is a prefix of it. |
| Websocket.HeartbeatNeedsExplicitSubscription | backend/server/websocket.py:122-142 | The heartbeat is offered to an authorized client iff it asked for the wildcard or for a prefix of "heartbeat". The always-on topics never cover it. |
| Websocket.DecideRaisesIffUntestable | backend/server/websocket.py:138-142 | The topic loop raises exactly when the message topic is not a string and the client's first topic is not the wildcard. |
| Websocket.FirstMatch | backend/server/websocket.py:139-142 | The short-circuiting topic loop returns Deliver, Pass or a type error, as the reference definition `Decide` says. |
| Websocket.Client.constructor | backend/server/websocket.py:20-27 | A new connection has no topics, is neither authorized nor disconnected, has no user and has sent nothing. |
| Websocket.Client.Authorize | backend/server/websocket.py:35-48 | The result is true iff the session check succeeded. On success, the topics become the requested ones plus the always-on ones (or only the wildcard if it was requested), and the client is authorized with the session's user. On failure nothing changes. |
| Websocket.DispatchEffect | backend/server/websocket.py:139-142 | One client's turn in the fan-out, with `send(m)` at backend/server/websocket.py:50-60. Topics, authorization and user never change. At most `m` is appended to what the client was sent. It is appended iff the topic loop delivers, the guards of `send` pass and the write succeeds. The client becomes disconnected iff it already was, or the topic loop delivers, the guards pass and the peer has gone. A client whose topics do not match is left as it was. |
| Websocket.AfterSend | backend/server/websocket.py:50-60 | A message is written iff the client passes the authorization and validity guards and the write succeeds. A peer disconnect sets `disconnected`. Other write errors are swallowed. Topics, authorization and user never change. |
| Websocket.Client.Send | backend/server/websocket.py:50-60 | The client's new state is `AfterSend` of its old state at its current age. |
| Websocket.Client.Offer | backend/server/websocket.py:138-142 | One client's turn in the fan-out: a type error leaves it unchanged; otherwise its new state is `Dispatch` of the old one. |
| Websocket.Client.Receive | backend/server/websocket.py:62-73 | A frame is accepted iff it decodes to a JSON object with a "topic" key, and then it is returned as is. |
| Websocket.Validity | backend/server/websocket.py:75-81 | A connection is valid iff it is not disconnected and it is either authorized or at most 3 seconds old. An authorized connection stays valid until it disconnects. |
| Websocket.Client.IsValid | backend/server/websocket.py:75-81 | `is_valid` holds iff the client is not disconnected and either authorized or at most 3 seconds past its creation at time `now`. |
| Websocket.InvalidStaysInvalid | backend/server/websocket.py:75-81 | Validity can only be lost as a connection ages. |
| Websocket.HeartbeatDue | backend/server/websocket.py:122 | A heartbeat is due iff more than 3 seconds passed since the last one. |
| Websocket.DecodeEnvelope | backend/server/websocket.py:128-135 | A payload decodes iff it is a list or a string with at least five elements. A list yields the envelope of its first five elements. A string yields a one-character string topic, its fourth character. |
| Websocket.DecodeInvertsBusRecord | backend/server/websocket.py:128-135 | Decoding the five-element `[timestamp, site, host, topic, data]` list yields the envelope it was made from. |
| Websocket.Classify | backend/server/websocket.py:116-135 | An idle read yields a heartbeat iff more than 3 seconds passed since the last one, and otherwise waits. A received payload is delivered when it decodes to five fields, and crashes the iteration otherwise. |
| Websocket.Broadcast | backend/server/websocket.py:137-142 | Over the snapshot in order, every client before a raising one gets `Dispatch`. The raising client and everything after it are unchanged. With no raise, every client is dispatched exactly once. It raises iff the topics of some client of the snapshot cannot be tested against the message's topic. |
| Websocket.Messaging.constructor | backend/server/websocket.py:85-112 | An empty registry, with the idle clock started at `now`. |
| Websocket.Messaging.Join | backend/server/websocket.py:88-95 | When the bus is not running, nothing is registered. Otherwise a fresh client under the new id is added, appended to the insertion order. |
| Websocket.Messaging.Sweep | backend/server/websocket.py:98-104 | The first purge loop closes exactly the invalid, not-yet-disconnected clients, in insertion order, and lists every invalid client for removal. A close error stops it right after that close. |
| Websocket.Messaging.Remove | backend/server/websocket.py:105-107 | The listed ids leave the registry and its order. Nothing else changes. |
| Websocket.Messaging.Purge | backend/server/websocket.py:97-107 | Afterwards, the registry holds exactly the clients that were valid, unchanged and in their old order, and the closed ids are the invalid, not-yet-disconnected ones. A close error aborts before anything is removed. It aborts iff closing some invalid, not-yet-disconnected client raises an error other than RuntimeError. |
| Websocket.Messaging.Snapshot | backend/server/websocket.py:137 | `list(self.clients.values())`: the registered clients in insertion order, each once. |
| Websocket.Messaging.Deliver | backend/server/websocket.py:137-143 | Fan-out then purge. It fails iff the topics of some client of the snapshot cannot be tested against the message's topic, or closing some invalid, not-yet-disconnected client raises an error other than RuntimeError. When the fan-out does not raise, every client of the old snapshot gets `Dispatch`, even when the purge then raises. After a fan-out raise, each client is either unchanged or dispatched. On success, only the valid clients stay registered, in their old order, and the closed ids are exactly the invalid, not-yet-disconnected clients in insertion order. |
| Websocket.Messaging.Step | backend/server/websocket.py:114-147 | One loop iteration. The idle clock moves only when a heartbeat is made. A malformed payload crashes without touching a client. A deliverable message crashes the iteration iff the fan-out or the purge raises, under the conditions stated for `Deliver`. When it is delivered, every client of the snapshot is offered it once, i.e. gets `Dispatch`. The registry then keeps exactly its valid clients in their old order, and the reported closed ids are exactly the invalid, not-yet-disconnected clients in insertion order. When the fan-out of a deliverable message does not raise, every client of the snapshot gets `Dispatch`, whether or not the purge then raises. When a deliverable message crashes the iteration, each client of the snapshot is either unchanged or dispatched. |
| Rundown.OrElse | backend/api/rundown/rundown.py:146-147 | Python's `a or b` on optional strings is `a` unless it is missing or empty. |
| Rundown.EnterEvent | backend/api/rundown/rundown.py:66-90 | The event part of an iteration keeps the rows well formed: `last_event` is the last event row, only item rows follow it, and rows stay numbered by position. |
| Rundown.NewEvent | backend/api/rundown/rundown.py:66 | With no rows yet, the record opens an event. Otherwise it opens one iff its event id differs from the id of `last_event`. |
| Rundown.EventRowOf | backend/api/rundown/rundown.py:67-79 | The event row carries the event's id, its position as row number, its bin, and the event's start as both scheduled and broadcast time. Its run mode defaults to auto, its duration is 0, and title, subtitle, asset and meta come from the event. |
| Rundown.OpenedEventRow | backend/api/rundown/rundown.py:66-79 | A new event appends exactly `EventRowOf` of the record. After the record's item, the row keeps its id, position, bin, run mode, titles and the event's start as scheduled time. It is still `EventRowOf` when there is no item or the item is skipped. Otherwise it has the item's duration and broadcast time. |
| Rundown.NewEventClock | backend/api/rundown/rundown.py:81-87 | At a new event, `ts_scheduled` restarts at the event's start. So does `ts_broadcast` under a non-auto run mode. Otherwise `ts_broadcast` resets to 0 after an event of zero duration and is kept after any other. |
| Rundown.OpenEvent | backend/api/rundown/rundown.py:66-90 | The imperative event part computes `EnterEvent`. |
| Rundown.NoItemNoRow | backend/api/rundown/rundown.py:92-94 | A record without an item adds no item row. For the current event, it changes nothing. |
| Rundown.AirStatus | backend/api/rundown/rundown.py:96-103 | A run with a truthy stop is AIRED, a run without one is ON AIR, and no run gives no air status. |
| Rundown.RunOf | backend/api/rundown/rundown.py:97 | The item's run is present iff the item id is in the run log, and it is then that entry. |
| Rundown.ItemStatus | backend/api/rundown/rundown.py:111-127 | The status priority chain: ONLINE without asset meta, then the air status, then OFFLINE from the asset, then REMOTE for a missing or offline playout copy, then ONLINE or CORRUPTED from the copy, and UNKNOWN otherwise. OFFLINE and UNKNOWN are stated in both directions, as is REMOTE once the earlier steps do not apply. An online or corrupted copy gives its own status, and AIRED or ON AIR only come from a run. |
| Rundown.TransferProgress | backend/api/rundown/rundown.py:129-132 | -1 exactly when the asset waits for a transfer, none otherwise. |
| Rundown.ItemRowOf | backend/api/rundown/rundown.py:138-156 | The item row carries the item's id, its position, its bin, the given scheduled and broadcast times, and the item's run mode, role and asset. Its title and subtitle are the item's unless missing or empty, else the asset's. Its status, transfer progress, duration and marks are the derived ones, and its asset mtime defaults to 0. |
| Rundown.ItemRowFields | backend/api/rundown/rundown.py:138-156 | The item row is numbered by its position and scheduled at `ts_scheduled`. It is broadcast at its run's start if it has one, else at `ts_broadcast`. It carries the derived status, transfer progress and parsed duration. |
| Rundown.Extend | backend/api/rundown/rundown.py:162-166 | Updating the last event after an item keeps every field of the event row except two. The broadcast time becomes the given one, and the item's duration is added to the duration. |
| Rundown.SkippedItemKeepsClock | backend/api/rundown/rundown.py:162-166 | A RUN_SKIP item changes neither clock (apart from the move to its run's start) nor any earlier row. |
| Rundown.ItemAdvancesClock | backend/api/rundown/rundown.py:162-166 | Any other item advances both clocks by its duration. Its event (mutated in place) gains the duration and takes the item's broadcast time. No other row changes. |
| Rundown.AddItem | backend/api/rundown/rundown.py:96-166 | The item part of an iteration keeps `last_event` and the row invariants. |
| Rundown.AppendItem | backend/api/rundown/rundown.py:96-166 | The imperative item part computes `AddItem`. |
| Rundown.AppendedRows | backend/api/rundown/rundown.py:66-158 | A record appends an event row iff it opens a new event, and an item row iff it has an item. The earlier rows other than `last_event` stay in place. |
| Rundown.Absorb | backend/api/rundown/rundown.py:59-166 | One iteration keeps the rows well formed and numbered. |
| Rundown.Build | backend/api/rundown/rundown.py:51-166 | The whole loop yields rows whose `row_number` is their position, and the last event row is followed only by item rows. |
| Rundown.EventDurationIsItemTotal | backend/api/rundown/rundown.py:162-166 | In the finished rundown, each event's duration is the sum of the durations of its non-skipped items. |
| Rundown.GetRundown | backend/api/rundown/rundown.py:13-168 | An unknown channel fails with NoSuchChannel. Otherwise the result is the fold of the records queried for `[start, start + 86400)`, with the runs and pending assets of that channel and window. |
| BaseObjects.TitleOf | backend/nebula/objects/base.py:21 | A subclip's title is its "title" value, or "" when it has none. |
| BaseObjects.Titles | backend/nebula/objects/base.py:21 | The subclip titles are listed (missing ones as "") iff every subclip is a dict. |
| BaseObjects.SubclipTitles | backend/nebula/objects/base.py:19-21 | Which `meta["subclips"]` values can be listed without raising: a list of dicts, or an empty string or dict. |
| BaseObjects.Raised | backend/nebula/objects/base.py:25-28 | After inserting words with a weight, the index holds its old words and the new ones. A word not inserted keeps its weight. An inserted word weighs at least the weight and at least its old weight, and it weighs one of the two. |
| BaseObjects.RaiseWords | backend/nebula/objects/base.py:23-28 | The inner word loop inserts each new word with the current weight and raises a known word's weight to the larger of the two. |
| BaseObjects.RaisedKeepsMaxIndex | backend/nebula/objects/base.py:25-41 | Inserting one source's words into a max-weight index yields the max-weight index of the enlarged set of sources. |
| BaseObjects.IndexTitles | backend/nebula/objects/base.py:19-30 | The subclip loop yields the max-weight index of the titles that slugify, all at weight 8. A title that raises is skipped. |
| BaseObjects.KeyStep | backend/nebula/objects/base.py:32-41 | Visiting one key loses no word and lowers no weight. An unknown key, a key with full-text weight 0, or a value that fails to slugify leaves the index unchanged. Otherwise every word of the value is in the index with at least the key's weight. A new word can only come from the value. |
| BaseObjects.KeyStepKeepsMaxIndex | backend/nebula/objects/base.py:31-43 | Visiting one key adds its source when its metatype is known, has a non-zero full-text weight, and its value slugifies. |
| BaseObjects.IndexKeys | backend/nebula/objects/base.py:31-43 | The key loop extends the index with exactly the indexed keys whose values slugify, each at its metatype's weight. |
| BaseObjects.CreateFtIndex | backend/nebula/objects/base.py:17-44 | It raises iff the subclips cannot be listed. Otherwise each indexed word's weight is the largest weight of any subclip title or indexed key producing it, the index has no other words, and every weight is attained. |
| BaseObjects.MaxIndexUnique | backend/nebula/objects/base.py:31-44 | The max-weight index of a set of sources is unique, so the result does not depend on the order in which the keys are visited. |
| BaseObjects.Lookup | backend/nebula/objects/base.py:98-103 | `obj[key]` is the stored value. A missing or None value of a known metatype reads as that metatype's default, and of an unknown key as None. |
| BaseObjects.Get | backend/nebula/objects/base.py:120-123 | `get` returns `obj[key]`, or the caller's default where that is None. |
| BaseObjects.Id | backend/nebula/objects/base.py:81-88 | `id` is None iff the stored id is missing or falsy. A non-zero int is returned as is, and True as 1. A numeric string gives its parsed value. Containers and non-numeric strings raise. |
| BaseObjects.Assigned | backend/nebula/objects/base.py:105-118 | A value that fails to normalize raises ValueError with the key and the value. A normalized None removes the key; any other value is stored. No other key changes. |
| BaseObjects.GetAfterSet | backend/nebula/objects/base.py:98-123 | After assigning a key, reading it back gives the normalized value, or the metatype default when that value was None. |
| BaseObjects.Patched | backend/nebula/objects/base.py:128-131 | A reported error names one of the given pairs. A key absent before the update can only be present after it if the patch names it. |
| BaseObjects.PatchedFailsAtFirst | backend/nebula/objects/base.py:128-131 | `update` fails iff some pair fails to normalize. It then reports the first such pair, with the pairs before it applied. |
| BaseObjects.PatchedLeavesOthers | backend/nebula/objects/base.py:128-131 | A key that the patch does not name keeps its value, or its absence. |
| BaseObjects.PatchedStoresEach | backend/nebula/objects/base.py:128-131 | When every pair normalizes and keys do not repeat, each patched key ends up holding its normalized value, or is removed when that is None. |
| BaseObjects.Initial | backend/nebula/objects/base.py:65-67 | The merge of `defaults` with the given `meta` holds the keys of both, and a given value wins over a default. |
| BaseObjects.BaseObject.constructor | backend/nebula/objects/base.py:55-67 | The new object's metadata is `Initial(defaults, meta)`, and it keeps the given user name. |
| BaseObjects.BaseObject.SetItem | backend/nebula/objects/base.py:105-118 | `__setitem__` sets the metadata to `Assigned` of the old one. On failure it raises, and the metadata is unchanged. |
| BaseObjects.BaseObject.Update | backend/nebula/objects/base.py:128-131 | `update` sets the metadata and the raised error to `Patched` of the old metadata. |
| BaseObjects.BaseObject.FromUntrusted | backend/nebula/objects/base.py:168-176 | It fails iff patching the defaults fails. Otherwise it returns a fresh object whose metadata is the patched defaults. |

## Left out

- **Concurrency and I/O.**
  - asyncio, Redis pub/sub and real sockets are left out. `get_message` timeouts, `asyncio.sleep` and the background-task lifecycle are not modelled. One sequential iteration of `run` is modelled, with the clock, the bus read and the socket outcomes as inputs.
  - The `while not self.shutting_down` loop, the 0.5 s backoff and the final log line are left out.
- **Clock.**
  - All `time.time()` calls within one iteration read one clock value `now`.
  - Times, durations and ages are integers, because floating point is not modelled.
- **Idle clock.**
  - `Websocket.Messaging.Step`: the idle clock `last_msg` is reset only when a heartbeat is made, as the code does. A real bus message does not reset it, so the first idle read after busy traffic can produce a heartbeat at once.
- **Heartbeat reach.**
  - The heartbeat's topic is not among the always-on topics. This is kept as written, and `HeartbeatNeedsExplicitSubscription` states the consequence.
- **Partial fan-out.**
  - `Websocket.Messaging.Step` and `Websocket.Messaging.Deliver`: when the fan-out raises part-way, each client is stated only to be either unchanged or dispatched, and which clients were dispatched is not stated. The exact prefix is stated by `Broadcast`.
- **Closed ids on a failing purge.**
  - `Websocket.Messaging.Deliver` and `Websocket.Messaging.Step`: when a close raises part-way through the purge, the result is a bare `None` (`Crashed`). The ids closed before the failing close are not reported. The code does not return them either: the exception propagates to the `except` of `run`. `Purge` states which ids were closed on that path.
- **Data the model does not include.**
  - `Client.user_name`: the `nebula.User` built from the session is kept as its meta map.
  - `receive_text` itself and its transport errors are left out. `Receive` models only the check of the decoded frame.
  - `json_dumps` and `json_loads` are left out. A payload that does not decode is `Received(None)`.
  - `backend/server/__init__.py`, the HTTP routes and the `auth` frame forwarding are left out.
  - `Websocket.Client.Authorize`: the requested topics are strings, as the `list[str]` annotation of `authorize` (backend/server/websocket.py:35) says. A non-string topic from the `auth` frame is not modelled. Such a topic would make `startswith` raise a TypeError in the fan-out at backend/server/websocket.py:140.
- **Rundown typing.**
  - The rows are plain datatypes, because `RundownRow` and its defaults in models.py are not part of this model.
  - ObjectStatus is an enumeration datatype. RUN_AUTO = 0 and RUN_SKIP = 4 are constants. enum.py is not part of this model.
  - The air status is taken to be truthy.
- **Rundown records.**
  - Records are typed:
    - an event always has `start`;
    - non-empty asset meta always has an `id`;
    - a playout status entry always has a `status`.
  - The KeyError the code would raise otherwise is not modelled.
  - `parse_durations` sees the asset meta as an Option (None for empty).
  - The SQL query is a parameter that returns the records, already in the order the query's ORDER BY gives.
- **Metadata.**
  - Metadata values are JSON without floats. `fulltext` is an integer, 0 standing for both 0 and None.
  - `slugify` returns a sequence of words. `min_length` and `make_set` are its own business.
- **Metadata operations not modelled.**
  - The database connection, `load`, `from_row`, `from_meta`, `save`, `_save`, `_insert`, `_update`, `__repr__`, `__str__`, `show` and `patch` are left out. `patch` only forwards to `update`.
  - The `log.error` calls of `create_ft_index` are left out. The exceptions they report are swallowed.
- **Metadata order.**
  - The metadata map is unordered.
  - A patch for `update` and `from_untrusted` is the sequence of its pairs in dict order, since a ValueError there stops the loop part-way.
  - The key loop of `create_ft_index` visits the keys in an arbitrary order. `MaxIndexUnique` shows that this does not matter.
