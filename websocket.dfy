/** The server's notification bus: the state of one websocket connection (`Client`)
    and the registry that fans bus messages out to all connections (`Messaging`).
    Time, the session check, the socket write and close, and the bus read are
    parameters; one call of `Messaging.Step` is one iteration of the delivery loop. */
module Websocket {
  import opened Wrappers
  import opened JsonValue

  /** Topics every authorized client gets on top of the ones it asked for. */
  const AlwaysSubscribe: seq<string> := ["server.started"]
  /** The subscription that matches every topic and replaces all others. */
  const Wildcard: string := "*"
  const HeartbeatTopic: string := "heartbeat"
  /** Seconds an unauthorized connection stays valid after it was created. */
  const GracePeriod: int := 3
  /** Seconds after the last heartbeat before an idle bus produces a new one. */
  const IdleThreshold: int := 3

  /** A message as the delivery loop hands it to `send`: the synthetic heartbeat
      `{"topic": "heartbeat"}` or a decoded 5-field bus envelope. */
  datatype Message =
    | Heartbeat
    | Envelope(timestamp: Json, site: Json, host: Json, topic: Json, data: Json)

  function TopicOf(m: Message): Json {
    match m
    case Heartbeat => JStr(HeartbeatTopic)
    case Envelope(_, _, _, topic, _) => topic
  }

  /** What the socket write does: succeed, raise WebSocketDisconnect, or raise anything else. */
  datatype WriteOutcome = Written | PeerDisconnected | WriteError
  /** What `sock.close(code=1000)` does: succeed, raise RuntimeError (suppressed), or raise anything else. */
  datatype CloseOutcome = Closed | AlreadyClosed | CloseError
  /** What one `get_message` call yields: nothing within the timeout, or a payload;
      `Received(None)` is a payload that `json_loads` rejects. */
  datatype BusRead = NoMessage | Received(payload: Option<Json>)

  /** The topics a client holds after a successful authorization. */
  function Subscriptions(requested: seq<string>): (subs: seq<string>)
    ensures Wildcard in requested ==> subs == [Wildcard]
    ensures Wildcard !in requested ==> forall t :: t in subs <==> t in requested || t in AlwaysSubscribe
    ensures Wildcard in subs <==> Wildcard in requested
  {
    if Wildcard in requested then [Wildcard] else requested + AlwaysSubscribe
  }

  /** The outcome of the fan-out's inner loop over one client's topics. */
  datatype Decision = Deliver | Pass | TopicTypeError

  /** Reference definition of that loop: with a string topic, a client gets the
      message iff one of its topics is the wildcard or a literal prefix of it; with
      a non-string topic, the first prefix test raises, so only a leading wildcard delivers. */
  function Decide(topics: seq<string>, topic: Json): Decision {
    if topic.JStr? then
      if exists t | t in topics :: t == Wildcard || t <= topic.s then Deliver else Pass
    else if topics == [] then Pass
    else if topics[0] == Wildcard then Deliver
    else TopicTypeError
  }

  /** Whether the topic loop over `topics` runs without raising for a message topic `topic`. */
  predicate Testable(topics: seq<string>, topic: Json) {
    topic.JStr? || topics == [] || topics[0] == Wildcard
  }

  lemma DecideRaisesIffUntestable(topics: seq<string>, topic: Json)
    ensures Decide(topics, topic) == TopicTypeError <==> !Testable(topics, topic)
  {
  }

  /** The inner loop of the fan-out: the first topic that matches short-circuits. */
  method FirstMatch(topics: seq<string>, topic: Json) returns (d: Decision)
    ensures d == Decide(topics, topic)
  {
    var i := 0;
    while i < |topics|
      invariant 0 <= i <= |topics|
      invariant forall j :: 0 <= j < i ==> topics[j] != Wildcard && topic.JStr? && !(topics[j] <= topic.s)
    {
      if topics[i] == Wildcard {
        assert topics[i] in topics;
        return Deliver;
      }
      if !topic.JStr? {
        return TopicTypeError;
      }
      if topics[i] <= topic.s {
        assert topics[i] in topics;
        return Deliver;
      }
      i := i + 1;
    }
    return Pass;
  }

  /** `is_valid`: not disconnected, and not unauthorized for longer than the grace period. */
  function Validity(disconnected: bool, authorized: bool, age: int): (valid: bool)
    ensures valid <==> !disconnected && (authorized || age <= GracePeriod)
    ensures authorized ==> (valid <==> !disconnected)
  {
    if disconnected then false
    else if !authorized && age > GracePeriod then false
    else true
  }

  /** Whether `send` gets past its two guards and writes to the socket. */
  predicate Writes(authorized: bool, disconnected: bool, age: int, authOnly: bool) {
    (authorized || !authOnly) && Validity(disconnected, authorized, age)
  }

  /** The fields of a `Client` that its methods change, plus the frames written to its socket. */
  datatype ClientState = ClientState(
    topics: seq<string>,
    authorized: bool,
    disconnected: bool,
    user: Option<map<string, Json>>,
    sent: seq<Message>)

  /** The effect of `send(m, auth_only)` on a client of the given age. */
  function AfterSend(s: ClientState, age: int, m: Message, authOnly: bool, outcome: WriteOutcome): (r: ClientState)
    ensures r.topics == s.topics && r.authorized == s.authorized && r.user == s.user
    ensures r.sent == s.sent || r.sent == s.sent + [m]
    ensures r.sent != s.sent <==> Writes(s.authorized, s.disconnected, age, authOnly) && outcome == Written
    ensures r.disconnected <==>
      s.disconnected || (Writes(s.authorized, s.disconnected, age, authOnly) && outcome == PeerDisconnected)
    ensures !Writes(s.authorized, s.disconnected, age, authOnly) ==> r == s
  {
    if !s.authorized && authOnly then s
    else if !Validity(s.disconnected, s.authorized, age) then s
    else
      match outcome
      case Written => s.(sent := s.sent + [m])
      case PeerDisconnected => s.(disconnected := true)
      case WriteError => s
  }

  /** One client's share of a fan-out: `send(m)` (with auth_only left true) when its topics match. */
  function Dispatch(s: ClientState, age: int, m: Message, outcome: WriteOutcome): ClientState
  {
    if Decide(s.topics, TopicOf(m)) == Deliver then AfterSend(s, age, m, true, outcome) else s
  }

  /** What one client's turn does: at most `m` is appended to what it was sent, it is
      appended exactly when the topics match and `send` writes successfully, the
      connection is marked disconnected only by a write to a gone peer, and nothing else
      of the client changes. */
  lemma DispatchEffect(s: ClientState, age: int, m: Message, outcome: WriteOutcome)
    ensures var r := Dispatch(s, age, m, outcome);
      && r.topics == s.topics && r.authorized == s.authorized && r.user == s.user
      && (r.sent == s.sent || r.sent == s.sent + [m])
      && (r.sent != s.sent <==>
            Decide(s.topics, TopicOf(m)) == Deliver && Writes(s.authorized, s.disconnected, age, true) && outcome == Written)
      && (r.disconnected <==>
            s.disconnected ||
            (Decide(s.topics, TopicOf(m)) == Deliver && Writes(s.authorized, s.disconnected, age, true) && outcome == PeerDisconnected))
      && (Decide(s.topics, TopicOf(m)) != Deliver ==> r == s)
  {
  }

  /** A successful authorization subscribes to every requested topic and to the
      always-on topics: a string topic is delivered iff one of these covers it. */
  lemma SubscriptionsMatch(requested: seq<string>, topic: string)
    ensures Decide(Subscriptions(requested), JStr(topic)) == Deliver <==>
      (exists t | t in requested :: t == Wildcard || t <= topic) || AlwaysSubscribe[0] <= topic
  {
    var subs := Subscriptions(requested);
    if Wildcard in requested {
      assert Wildcard in subs;
    } else {
      if exists t | t in requested :: t == Wildcard || t <= topic {
        var t :| t in requested && (t == Wildcard || t <= topic);
        assert t in subs;
      }
      if AlwaysSubscribe[0] <= topic {
        assert AlwaysSubscribe[0] in subs;
      }
    }
  }

  /** The heartbeat's topic is not covered by the always-on topics, so only clients
      that asked for the wildcard or for a prefix of "heartbeat" ever receive it. */
  lemma HeartbeatNeedsExplicitSubscription(requested: seq<string>)
    ensures Decide(Subscriptions(requested), TopicOf(Heartbeat)) == Deliver <==>
      exists t | t in requested :: t == Wildcard || t <= HeartbeatTopic
  {
  }

  /** Once a connection is invalid it stays invalid as time goes on. */
  lemma InvalidStaysInvalid(disconnected: bool, authorized: bool, age: int, later: int)
    requires age <= later
    ensures !Validity(disconnected, authorized, age) ==> !Validity(disconnected, authorized, later)
  {
  }

  /** How far a fan-out over `n` clients got: all of them, or up to the one that raised. */
  function Reached(failedAt: Option<nat>, n: nat): nat {
    if failedAt.Some? && failedAt.value < n then failedAt.value else n
  }

  /** The elements of `ids`, in their order, that belong to `s`. */
  function Keep(ids: seq<string>, s: set<string>): seq<string> {
    if ids == [] then []
    else Keep(ids[..|ids| - 1], s) + (if ids[|ids| - 1] in s then [ids[|ids| - 1]] else [])
  }

  predicate Distinct(ids: seq<string>) {
    forall i, j :: 0 <= i < j < |ids| ==> ids[i] != ids[j]
  }

  lemma {:induction false} KeepMembers(ids: seq<string>, s: set<string>)
    ensures forall x :: x in Keep(ids, s) <==> x in ids && x in s
  {
    if ids != [] {
      var init := ids[..|ids| - 1];
      KeepMembers(init, s);
      assert ids == init + [ids[|ids| - 1]];
    }
  }

  lemma {:induction false} KeepDistinct(ids: seq<string>, s: set<string>)
    requires Distinct(ids)
    ensures Distinct(Keep(ids, s))
  {
    if ids != [] {
      var init := ids[..|ids| - 1];
      KeepDistinct(init, s);
      KeepMembers(init, s);
      assert ids[|ids| - 1] !in init;
    }
  }

  /** One more element: `Keep` on a prefix one longer. */
  lemma KeepStep(ids: seq<string>, i: nat, s: set<string>)
    requires i < |ids|
    ensures Keep(ids[..i + 1], s) == Keep(ids[..i], s) + (if ids[i] in s then [ids[i]] else [])
  {
    assert ids[..i + 1][..i] == ids[..i];
  }

  lemma {:induction false} KeepPrefix(ids: seq<string>, n: nat, s: set<string>)
    requires n <= |ids|
    ensures Keep(ids[..n], s) <= Keep(ids, s)
  {
    if n < |ids| {
      var init := ids[..|ids| - 1];
      KeepPrefix(init, n, s);
      assert init[..n] == ids[..n];
    } else {
      assert ids[..n] == ids;
    }
  }

  /** One websocket connection. */
  class Client {
    const id: string
    const createdAt: int
    var topics: seq<string>
    var disconnected: bool
    var authorized: bool
    /** The user record of the verified session, once authorized. */
    var user: Option<map<string, Json>>
    /** The messages written to this client's socket, oldest first. */
    var sent: seq<Message>

    /** A new connection with the given (generated) id, created at `now`. */
    constructor (id: string, now: int)
      ensures this.id == id && createdAt == now
      ensures State() == ClientState([], false, false, None, [])
    {
      this.id := id;
      createdAt := now;
      topics := [];
      disconnected := false;
      authorized := false;
      user := None;
      sent := [];
    }

    function State(): ClientState
      reads this
    {
      ClientState(topics, authorized, disconnected, user, sent)
    }

    function IsValid(now: int): (valid: bool)
      reads this
      ensures valid <==> !disconnected && (authorized || now - createdAt <= GracePeriod)
    {
      Validity(disconnected, authorized, now - createdAt)
    }

    /** `authorize`: `session` is what the session check returned for the token. */
    method Authorize(session: Option<map<string, Json>>, requested: seq<string>) returns (ok: bool)
      modifies this
      ensures ok <==> session.Some?
      ensures ok ==> topics == Subscriptions(requested) && authorized && user == Some(session.value)
      ensures !ok ==> topics == old(topics) && authorized == old(authorized) && user == old(user)
      ensures disconnected == old(disconnected) && sent == old(sent)
    {
      if session.Some? {
        topics := Subscriptions(requested);
        authorized := true;
        user := session;
        return true;
      }
      return false;
    }

    /** `send`: never raises; a write error other than a disconnect is swallowed. */
    method Send(m: Message, authOnly: bool, now: int, outcome: WriteOutcome)
      modifies this
      ensures State() == AfterSend(old(State()), now - createdAt, m, authOnly, outcome)
    {
      if !authorized && authOnly {
        return;
      }
      if !IsValid(now) {
        return;
      }
      match outcome
      case Written => sent := sent + [m];
      case PeerDisconnected => disconnected := true;
      case WriteError =>
    }

    /** One client's turn in the fan-out: the topic loop, then `send(m)` on a match. */
    method Offer(m: Message, now: int, outcome: WriteOutcome) returns (d: Decision)
      modifies this
      ensures d == Decide(old(topics), TopicOf(m))
      ensures d == TopicTypeError <==> !Testable(old(topics), TopicOf(m))
      ensures State() == if d == TopicTypeError then old(State()) else Dispatch(old(State()), now - createdAt, m, outcome)
    {
      d := FirstMatch(topics, TopicOf(m));
      if d == Deliver {
        Send(m, true, now, outcome);
      }
    }

    /** The guard of `receive`: `frame` is the received text after `json_loads`
        (None when it does not parse). Never changes the client. */
    method Receive(frame: Option<Json>) returns (message: Option<map<string, Json>>)
      ensures message.Some? <==> frame.Some? && frame.value.JObj? && "topic" in frame.value.fields
      ensures message.Some? ==> message.value == frame.value.fields
    {
      if frame.None? {
        return None;
      }
      match frame.value
      case JObj(fields) =>
        if "topic" in fields {
          return Some(fields);
        }
        return None;
      case _ =>
        return None;
    }
  }

  /** How a bus read decodes: wait for the next read, a message to deliver, or a payload
      whose decoding raises. */
  datatype Inbound = Wait | Deliverable(message: Message) | Malformed

  function HeartbeatDue(lastMsg: int, now: int): (due: bool)
    ensures due <==> now > lastMsg + IdleThreshold
    ensures due ==> now > lastMsg
  {
    now - lastMsg > IdleThreshold
  }

  /** The five fields of a bus record, `data[0]` to `data[4]`; indexing a list or
      string shorter than five, or anything else, raises. */
  function DecodeEnvelope(payload: Option<Json>): (r: Option<Message>)
    ensures r.Some? <==>
      (payload.Some? &&
       ((payload.value.JArr? && |payload.value.items| >= 5) || (payload.value.JStr? && |payload.value.s| >= 5)))
    ensures r.Some? ==> r.value.Envelope?
    ensures payload.Some? && payload.value.JArr? && |payload.value.items| >= 5 ==>
      var f := payload.value.items;
      r == Some(Envelope(f[0], f[1], f[2], f[3], f[4]))
    ensures payload.Some? && payload.value.JStr? && |payload.value.s| >= 5 ==>
      r.value.topic == JStr([payload.value.s[3]])
  {
    match payload
    case None => None
    case Some(JArr(f)) =>
      if |f| >= 5 then Some(Envelope(f[0], f[1], f[2], f[3], f[4])) else None
    case Some(JStr(s)) =>
      if |s| >= 5 then Some(Envelope(JStr([s[0]]), JStr([s[1]]), JStr([s[2]]), JStr([s[3]]), JStr([s[4]])))
      else None
    case Some(_) => None
  }

  /** The `[timestamp, site, host, topic, data]` list a publisher puts on the bus. */
  function BusRecord(m: Message): Json
    requires m.Envelope?
  {
    JArr([m.timestamp, m.site, m.host, m.topic, m.data])
  }

  lemma DecodeInvertsBusRecord(m: Message)
    requires m.Envelope?
    ensures DecodeEnvelope(Some(BusRecord(m))) == Some(m)
  {
  }

  /** The first half of a loop iteration: heartbeat decision and envelope decoding. */
  function Classify(read: BusRead, lastMsg: int, now: int): (r: Inbound)
    ensures r == Deliverable(Heartbeat) <==> read.NoMessage? && HeartbeatDue(lastMsg, now)
    ensures r == Wait <==> read.NoMessage? && !HeartbeatDue(lastMsg, now)
    ensures read.Received? ==> r == (if DecodeEnvelope(read.payload).Some? then Deliverable(DecodeEnvelope(read.payload).value) else Malformed)
  {
    match read
    case NoMessage => if HeartbeatDue(lastMsg, now) then Deliverable(Heartbeat) else Wait
    case Received(payload) =>
      match DecodeEnvelope(payload)
      case Some(m) => Deliverable(m)
      case None => Malformed
  }

  /** What one iteration of the delivery loop did: continued without delivering,
      delivered a message and purged (closing the listed connections), or raised and backed off. */
  datatype Iteration = Idle | Delivered(message: Message, closed: seq<string>) | Crashed

  /** Whether the fan-out of `m` over `snapshot` raises: the topics of some client
      cannot be tested against the message's topic. */
  ghost predicate FanOutRaises(snapshot: seq<Client>, m: Message)
    reads set c | c in snapshot
  {
    exists c :: c in snapshot && !Testable(c.topics, TopicOf(m))
  }

  /**
   * Offer one message to every client of a snapshot of the registry, in
   * snapshot order, each at most once. A client whose topics cannot be
   * tested against the message's topic raises, and the remaining clients
   * are not offered the message.
   */
  method Broadcast(snapshot: seq<Client>, m: Message, now: int, write: string -> WriteOutcome)
    returns (failedAt: Option<nat>)
    requires forall a, b :: 0 <= a < b < |snapshot| ==> snapshot[a] != snapshot[b]
    modifies set c | c in snapshot
    ensures failedAt.Some? ==>
      (failedAt.value < |snapshot| && !old(Testable(snapshot[failedAt.value].topics, TopicOf(m))))
    ensures forall k :: 0 <= k < Reached(failedAt, |snapshot|) ==>
      old(Testable(snapshot[k].topics, TopicOf(m)))
    ensures forall k :: 0 <= k < Reached(failedAt, |snapshot|) ==>
      snapshot[k].State() == Dispatch(old(snapshot[k].State()), now - snapshot[k].createdAt, m, write(snapshot[k].id))
    ensures forall k :: Reached(failedAt, |snapshot|) <= k < |snapshot| ==>
      snapshot[k].State() == old(snapshot[k].State())
    ensures failedAt.None? ==>
      forall c :: c in snapshot ==> c.State() == Dispatch(old(c.State()), now - c.createdAt, m, write(c.id))
    ensures forall c :: c in snapshot ==>
      c.State() == old(c.State()) || c.State() == Dispatch(old(c.State()), now - c.createdAt, m, write(c.id))
    ensures failedAt.Some? <==> old(FanOutRaises(snapshot, m))
  {
    failedAt := None;
    var i := 0;
    while i < |snapshot|
      invariant 0 <= i <= |snapshot|
      invariant forall k :: 0 <= k < i ==> old(Testable(snapshot[k].topics, TopicOf(m)))
      invariant forall k :: 0 <= k < i ==>
        snapshot[k].State() == Dispatch(old(snapshot[k].State()), now - snapshot[k].createdAt, m, write(snapshot[k].id))
      invariant forall k :: i <= k < |snapshot| ==> snapshot[k].State() == old(snapshot[k].State())
    {
      label before:
      var d := snapshot[i].Offer(m, now, write(snapshot[i].id));
      forall k | 0 <= k < |snapshot| && k != i
        ensures snapshot[k].State() == old@before(snapshot[k].State())
      {
        assert snapshot[k] != snapshot[i];
      }
      if d == TopicTypeError {
        failedAt := Some(i);
        break;
      }
      i := i + 1;
    }
  }

  /** The registered ids whose connection `purge` closes at time `now`: invalid and
      not yet disconnected. */
  ghost function Closable(clients: map<string, Client>, now: int): set<string>
    reads clients.Values
  {
    set id | id in clients && !clients[id].IsValid(now) && !clients[id].disconnected
  }

  /** Whether `purge` raises: closing one of the `Closable` clients fails with an error
      other than RuntimeError. */
  ghost predicate CloseRaises(clients: map<string, Client>, now: int, close: string -> CloseOutcome)
    reads clients.Values
  {
    exists id :: id in Closable(clients, now) && close(id) == CloseError
  }

  /** The bus: the registry of connections and the state of its delivery loop. */
  class Messaging {
    /** `is_running` of the background task. */
    var running: bool
    var clients: map<string, Client>
    /** The keys of `clients` in insertion order, the order in which Python iterates them. */
    var order: seq<string>
    /** The loop's `last_msg`. */
    var lastMsg: int

    ghost predicate Valid()
      reads this
    {
      && (forall id :: id in clients ==> clients[id].id == id)
      && (forall id :: id in clients <==> id in order)
      && Distinct(order)
    }

    /** `initialize`, then the start of `run` at time `now`. */
    constructor (running: bool, now: int)
      ensures Valid()
      ensures this.running == running && clients == map[] && order == [] && lastMsg == now
    {
      this.running := running;
      clients := map[];
      order := [];
      lastMsg := now;
    }

    /** `join`: registers a new connection with the generated id `id` when the bus runs. */
    method Join(id: string, now: int) returns (c: Client?)
      requires Valid()
      modifies this
      ensures Valid()
      ensures running == old(running) && lastMsg == old(lastMsg)
      ensures !running ==> c == null && clients == old(clients) && order == old(order)
      ensures running ==> c != null && fresh(c) && c.id == id && c.createdAt == now
      ensures running ==> c.State() == ClientState([], false, false, None, [])
      ensures running ==> clients == old(clients)[id := c]
      ensures running ==> order == if id in old(clients) then old(order) else old(order) + [id]
    {
      if !running {
        return null;
      }
      c := new Client(id, now);
      if id !in clients {
        order := order + [id];
      }
      clients := clients[id := c];
    }

    ghost function Stale(now: int): set<string>
      reads this, clients.Values
    {
      set id | id in clients && !clients[id].IsValid(now)
    }

    /** `Closable` of the registry. It has its own definition because the purge loop's
        proof is cheaper over it; `ToCloseIsClosable` ties the two together. */
    ghost function ToClose(now: int): set<string>
      reads this, clients.Values
    {
      set id | id in clients && !clients[id].IsValid(now) && !clients[id].disconnected
    }

    lemma ToCloseIsClosable(now: int)
      ensures ToClose(now) == Closable(clients, now)
    {
    }

    /** The first loop of `purge`: walks the registry in insertion order, closing the
        socket of every invalid client that is not yet disconnected and collecting the
        ids of every invalid client. A close error other than RuntimeError escapes
        (`ok` false) right after that close. Changes neither the registry nor a client. */
    method Sweep(now: int, close: string -> CloseOutcome) returns (ok: bool, closed: seq<string>, toRm: seq<string>)
      requires Valid()
      ensures closed <= Keep(order, ToClose(now))
      ensures ok ==> closed == Keep(order, ToClose(now)) && toRm == Keep(order, Stale(now))
      ensures ok ==> forall id :: id in closed ==> close(id) != CloseError
      ensures !ok ==> closed != [] && close(closed[|closed| - 1]) == CloseError
      ensures !ok ==> forall j :: 0 <= j < |closed| - 1 ==> close(closed[j]) != CloseError
    {
      ghost var stale := Stale(now);
      ghost var toClose := ToClose(now);
      ok := true;
      closed := [];
      toRm := [];
      var i := 0;
      while i < |order|
        invariant 0 <= i <= |order|
        invariant toRm == Keep(order[..i], stale)
        invariant closed == Keep(order[..i], toClose)
        invariant forall id :: id in closed ==> close(id) != CloseError
      {
        var id := order[i];
        var c := clients[id];
        var invalid, open := !c.IsValid(now), !c.disconnected;
        KeepStep(order, i, stale);
        KeepStep(order, i, toClose);
        assert id in stale <==> invalid;
        assert id in toClose <==> invalid && open;
        if invalid {
          if open {
            var outcome := close(id);
            closed := closed + [id];
            if outcome == CloseError {
              KeepPrefix(order, i + 1, toClose);
              ok := false;
              return;
            }
          }
          toRm := toRm + [id];
        }
        i := i + 1;
      }
      assert order[..i] == order;
    }

    /** The second loop of `purge`: deletes every listed id from the registry. */
    method Remove(ids: seq<string>)
      requires Valid()
      modifies this
      ensures Valid()
      ensures running == old(running) && lastMsg == old(lastMsg)
      ensures clients == old(clients) - (set x | x in ids)
      ensures order == Keep(old(order), clients.Keys)
    {
      var remaining := clients;
      var k := 0;
      while k < |ids|
        invariant 0 <= k <= |ids|
        invariant remaining == old(clients) - set j | 0 <= j < k :: ids[j]
      {
        assert (set j | 0 <= j < k + 1 :: ids[j]) == (set j | 0 <= j < k :: ids[j]) + {ids[k]};
        remaining := remaining - {ids[k]};
        k := k + 1;
      }
      assert (set j | 0 <= j < |ids| :: ids[j]) == (set x | x in ids);
      KeepMembers(order, remaining.Keys);
      KeepDistinct(order, remaining.Keys);
      clients := remaining;
      order := Keep(order, remaining.Keys);
    }

    /** `purge`: closes the invalid connections that are not yet disconnected and removes
        every invalid connection. A close error other than RuntimeError escapes the
        purge (`ok` false) before anything is removed. */
    method Purge(now: int, close: string -> CloseOutcome) returns (ok: bool, closed: seq<string>)
      requires Valid()
      modifies this
      ensures Valid()
      ensures running == old(running) && lastMsg == old(lastMsg)
      ensures closed <= Keep(old(order), Closable(old(clients), now))
      ensures forall id :: id in closed ==> id in Closable(old(clients), now)
      ensures forall id :: id in closed ==>
        id in old(clients) && !old(clients)[id].IsValid(now) && !old(clients)[id].disconnected
      ensures ok ==> closed == Keep(old(order), Closable(old(clients), now))
      ensures ok ==> forall id :: id in closed ==> close(id) != CloseError
      ensures !ok ==> closed != [] && close(closed[|closed| - 1]) == CloseError
      ensures !ok ==> forall j :: 0 <= j < |closed| - 1 ==> close(closed[j]) != CloseError
      ensures ok ==> clients == old(clients) - old(Stale(now))
      ensures ok ==> forall id :: id in clients <==> id in old(clients) && old(clients)[id].IsValid(now)
      ensures forall id :: id in clients ==> id in old(clients) && clients[id] == old(clients)[id]
      ensures ok ==> order == Keep(old(order), clients.Keys)
      ensures !ok ==> clients == old(clients) && order == old(order)
      ensures !ok <==> CloseRaises(old(clients), now, close)
    {
      var toRm;
      ok, closed, toRm := Sweep(now, close);
      ToCloseIsClosable(now);
      KeepMembers(order, ToClose(now));
      if !ok {
        assert closed[|closed| - 1] in Keep(order, ToClose(now));
        return;
      }
      KeepMembers(order, Stale(now));
      assert (set x | x in toRm) == Stale(now);
      Remove(toRm);
    }

    /** `list(self.clients.values())`: the registered clients in insertion order. */
    function Snapshot(): (s: seq<Client>)
      requires Valid()
      reads this
      ensures |s| == |order|
      ensures forall k :: 0 <= k < |order| ==> s[k] == clients[order[k]] && s[k].id == order[k]
      ensures forall a, b :: 0 <= a < b < |s| ==> s[a] != s[b]
    {
      seq(|order|, k requires 0 <= k < |order| && order[k] in clients reads this => clients[order[k]])
    }

    /** The delivery half of an iteration of `run`: the fan-out of `m` to a snapshot of
        the registry, then `purge`. `None` when either raised. */
    method Deliver(m: Message, now: int, write: string -> WriteOutcome, close: string -> CloseOutcome)
      returns (closed: Option<seq<string>>)
      requires Valid()
      modifies this, clients.Values
      ensures Valid()
      ensures running == old(running) && lastMsg == old(lastMsg)
      ensures old(FanOutRaises(Snapshot(), m)) ==> forall c :: c in old(Snapshot()) ==>
        c.State() == old(c.State()) || c.State() == Dispatch(old(c.State()), now - c.createdAt, m, write(c.id))
      ensures closed.Some? ==> forall id :: id in clients <==> id in old(clients) && old(clients)[id].IsValid(now)
      ensures closed.None? ==> clients == old(clients) && order == old(order)
      ensures forall id :: id in clients ==> id in old(clients) && clients[id] == old(clients)[id]
      ensures closed.Some? ==> forall id :: id in closed.value ==>
        id in old(clients) && !old(clients)[id].IsValid(now) && !old(clients)[id].disconnected
      ensures closed.Some? ==> closed.value == Keep(old(order), Closable(old(clients), now))
      ensures closed.Some? ==> order == Keep(old(order), clients.Keys)
      ensures closed.None? <==> old(FanOutRaises(Snapshot(), m)) || CloseRaises(old(clients), now, close)
      ensures !old(FanOutRaises(Snapshot(), m)) ==>
        forall c :: c in old(Snapshot()) ==> c.State() == Dispatch(old(c.State()), now - c.createdAt, m, write(c.id))
    {
      var snapshot := Snapshot();
      assert snapshot == old(Snapshot());
      var failedAt := Broadcast(snapshot, m, now, write);
      if failedAt.Some? {
        assert old(FanOutRaises(Snapshot(), m));
        return None;
      }
      assert !old(FanOutRaises(Snapshot(), m));
      assert clients == old(clients) && order == old(order);
      var ok, ids := Purge(now, close);
      closed := if ok then Some(ids) else None;
    }

    /** One iteration of `run` while the bus is not shutting down. */
    method Step(read: BusRead, now: int, write: string -> WriteOutcome, close: string -> CloseOutcome)
      returns (r: Iteration)
      requires Valid()
      modifies this, clients.Values
      ensures Valid()
      ensures running == old(running)
      ensures lastMsg == if read.NoMessage? && HeartbeatDue(old(lastMsg), now) then now else old(lastMsg)
      ensures r.Idle? <==> Classify(read, old(lastMsg), now) == Wait
      ensures Classify(read, old(lastMsg), now) == Malformed ==> r.Crashed?
      ensures r.Delivered? ==> Classify(read, old(lastMsg), now) == Deliverable(r.message)
      ensures !r.Delivered? ==> clients == old(clients) && order == old(order)
      ensures r.Idle? || Classify(read, old(lastMsg), now) == Malformed ==>
        forall c :: c in old(Snapshot()) ==> c.State() == old(c.State())
      ensures r.Delivered? ==>
        forall c :: c in old(Snapshot()) ==> c.State() == Dispatch(old(c.State()), now - c.createdAt, r.message, write(c.id))
      ensures r.Delivered? ==> forall id :: id in clients <==> id in old(clients) && old(clients)[id].IsValid(now)
      ensures forall id :: id in clients ==> id in old(clients) && clients[id] == old(clients)[id]
      ensures r.Delivered? ==> forall id :: id in r.closed ==>
        id in old(clients) && !old(clients)[id].IsValid(now) && !old(clients)[id].disconnected
      ensures r.Delivered? ==> r.closed == Keep(old(order), Closable(old(clients), now))
      ensures r.Delivered? ==> order == Keep(old(order), clients.Keys)
      ensures r.Crashed? && Classify(read, old(lastMsg), now).Deliverable? ==>
        forall c :: c in old(Snapshot()) ==>
          c.State() == old(c.State())
          || c.State() == Dispatch(old(c.State()), now - c.createdAt, Classify(read, old(lastMsg), now).message, write(c.id))
      ensures Classify(read, old(lastMsg), now).Deliverable? ==>
        (r.Crashed? <==>
           old(FanOutRaises(Snapshot(), Classify(read, lastMsg, now).message)) || CloseRaises(old(clients), now, close))
      ensures Classify(read, old(lastMsg), now).Deliverable? &&
              !old(FanOutRaises(Snapshot(), Classify(read, lastMsg, now).message)) ==>
        forall c :: c in old(Snapshot()) ==>
          c.State() == Dispatch(old(c.State()), now - c.createdAt, Classify(read, old(lastMsg), now).message, write(c.id))
    {
      var inbound := Classify(read, lastMsg, now);
      if inbound == Wait {
        return Idle;
      }
      if inbound == Malformed {
        return Crashed;
      }
      if read.NoMessage? {
        lastMsg := now;
      }
      assert Snapshot() == old(Snapshot());
      var closed := Deliver(inbound.message, now, write, close);
      if closed.None? {
        return Crashed;
      }
      return Delivered(inbound.message, closed.value);
    }
  }
}
