/** The worker's event bus (apps/runtime-worker/src/core/events/event-bus.ts) and the /events route that
    replays it to a reconnecting client (apps/runtime-worker/src/health/events.routes.ts). */
module EventReplay {
  import opened Option

  /** A resync message is published on the bus like any other event. */
  datatype Payload = Data(body: string) | ResyncRequired(fromSeq: real)

  datatype Event = Event(seq_: nat, payload: Payload)

  // ----- The bus -----

  datatype Bus = Bus(max: nat, lastSeq: nat, buffer: seq<Event>)

  function NextSeq(lastSeq: nat, offset: int): nat {
    var floor := if offset > 0 then offset else 1;
    if lastSeq + 1 > floor then lastSeq + 1 else floor
  }

  /** The last n elements of s. */
  function Newest(s: seq<Event>, n: nat): seq<Event> {
    if |s| <= n then s else s[|s| - n..]
  }

  function Publish(b: Bus, offset: int, payload: Payload): (Bus, Event) {
    var e := Event(NextSeq(b.lastSeq, offset), payload);
    (Bus(b.max, e.seq_, Newest(b.buffer + [e], b.max)), e)
  }

  function After(s: seq<Event>, since: real): seq<Event> {
    if s == [] then []
    else (if s[0].seq_ as real > since then [s[0]] else []) + After(s[1..], since)
  }

  lemma AfterStep(s: seq<Event>, i: nat, since: real, front: seq<Event>)
    requires i < |s|
    ensures front + After(s[i..], since)
            == (if s[i].seq_ as real > since then front + [s[i]] else front) + After(s[i + 1..], since)
  {
    assert s[i..][1..] == s[i + 1..];
    if s[i].seq_ as real > since {
      assert front + ([s[i]] + After(s[i + 1..], since)) == front + [s[i]] + After(s[i + 1..], since);
    }
  }

  function OldestSeq(b: Bus): Option<nat> {
    if b.buffer == [] then None else Some(b.buffer[0].seq_)
  }

  predicate HasGap(b: Bus, since: real) {
    OldestSeq(b).Some? && since < OldestSeq(b).value as real - 1.0
  }

  /** The bus object: the clock's offset from construction time is an input of publish, and each
      subscriber is the stream its handler writes to. */
  class EventBus {
    const maxBufferSize: nat
    var lastSeq: nat
    var buffer: seq<Event>
    var subscribers: map<nat, seq<Event>>

    ghost function Abs(): Bus
      reads this
    {
      Bus(maxBufferSize, lastSeq, buffer)
    }

    constructor (maxBufferSize: nat)
      ensures Abs() == Bus(maxBufferSize, 0, []) && subscribers == map[]
    {
      this.maxBufferSize := maxBufferSize;
      lastSeq, buffer, subscribers := 0, [], map[];
    }

    /** while (buffer.length > max) buffer.shift() */
    method Shift()
      modifies this`buffer
      ensures buffer == Newest(old(buffer), maxBufferSize)
    {
      ghost var full := buffer;
      while |buffer| > maxBufferSize
        invariant |buffer| <= |full| && buffer == full[|full| - |buffer|..]
        invariant |full| <= maxBufferSize ==> buffer == full
        invariant |full| > maxBufferSize ==> |buffer| >= maxBufferSize
      {
        buffer := buffer[1..];
      }
    }

    method PublishEvent(offset: int, payload: Payload) returns (seq_: nat)
      modifies this
      ensures Abs() == Publish(old(Abs()), offset, payload).0
      ensures seq_ == Publish(old(Abs()), offset, payload).1.seq_
      ensures subscribers == map id | id in old(subscribers) ::
                               old(subscribers)[id] + [Publish(old(Abs()), offset, payload).1]
    {
      var floor := if offset > 0 then offset else 1;
      seq_ := if lastSeq + 1 > floor then lastSeq + 1 else floor;
      lastSeq := seq_;
      var entry := Event(seq_, payload);
      buffer := buffer + [entry];
      Shift();
      subscribers := map id | id in subscribers :: subscribers[id] + [entry];
    }

    method Subscribe(id: nat)
      modifies this
      ensures subscribers == old(subscribers)[id := []] && Abs() == old(Abs())
    {
      subscribers := subscribers[id := []];
    }

    method Unsubscribe(id: nat)
      modifies this
      ensures subscribers == old(subscribers) - {id} && Abs() == old(Abs())
    {
      subscribers := subscribers - {id};
    }

    method GetBuffered(sinceSeq: real) returns (events: seq<Event>)
      ensures events == After(buffer, sinceSeq)
    {
      events := [];
      for i := 0 to |buffer|
        invariant events + After(buffer[i..], sinceSeq) == After(buffer, sinceSeq)
      {
        AfterStep(buffer, i, sinceSeq, events);
        if buffer[i].seq_ as real > sinceSeq {
          events := events + [buffer[i]];
        }
      }
    }

    method GetOldestBufferedSeq() returns (oldest: Option<nat>)
      ensures oldest == OldestSeq(Abs())
    {
      oldest := if buffer == [] then None else Some(buffer[0].seq_);
    }

    /** The route. `since` is the number of the query, None when it is not a finite one; the result is what
        the stream has been sent so far, None for the refusal with status 400. A number is answered by the
        gap test, then either a resync message or a replay, then the live subscription. */
    method Connect(id: nat, since: Option<real>, offset: int) returns (sent: Option<seq<Event>>)
      modifies this
      ensures sent.None? <==> since.None? || since.value < 0.0
      ensures sent.None? ==> Abs() == old(Abs()) && subscribers == old(subscribers)
      ensures sent.Some? ==> Abs() == ConnectBus(old(Abs()), since.value, offset)
      ensures sent.Some? ==> sent.value == ConnectSent(old(Abs()), since.value, offset)
      ensures sent.Some? ==> id in subscribers && subscribers[id] == []
      ensures sent.Some? ==> forall j :: j in old(subscribers) && j != id ==>
                j in subscribers && subscribers[j] == old(subscribers)[j] + ConnectNews(old(Abs()), since.value, offset)
    {
      if since.None? || since.value < 0.0 {
        return None;
      }
      var oldest := GetOldestBufferedSeq();
      var hasGap := oldest.Some? && since.value < oldest.value as real - 1.0;
      if hasGap {
        var s := PublishEvent(offset, ResyncRequired(since.value));
        sent := Some([Event(s, ResyncRequired(since.value))]);
      } else {
        var buffered := GetBuffered(since.value);
        sent := Some(buffered);
      }
      Subscribe(id);
    }
  }

  /** What connecting adds to the bus, and so to every stream that is already subscribed. */
  function ConnectNews(b: Bus, since: real, offset: int): seq<Event> {
    if HasGap(b, since) then [Publish(b, offset, ResyncRequired(since)).1] else []
  }

  function ConnectBus(b: Bus, since: real, offset: int): Bus {
    if HasGap(b, since) then Publish(b, offset, ResyncRequired(since)).0 else b
  }

  function ConnectSent(b: Bus, since: real, offset: int): seq<Event> {
    if HasGap(b, since) then ConnectNews(b, since, offset) else After(b.buffer, since)
  }

  // ----- The system: one bus, its whole history, and any number of clients -----

  /** `log` is what the client has received since the last resync message it was sent (since the beginning if
      there was none), which is the event number `base` of the history; `wire` is what has been written to
      its stream and not yet received. A connection that opened with a resync message the client has not
      received yet remembers that message's place in `resyncAt`. */
  datatype Client = Client(connected: bool, log: seq<Event>, base: nat, wire: seq<Event>, resyncAt: Option<nat>)

  datatype State = State(bus: Bus, history: seq<Event>, clients: map<nat, Client>)

  datatype Action =
    | Emit(offset: int, payload: Payload)
    | Open(id: nat, offset: int)
    | Receive(id: nat)
    | Close(id: nat)

  const NEW_CLIENT := Client(false, [], 0, [], None)

  function ClientOf(s: State, id: nat): Client {
    if id in s.clients then s.clients[id] else NEW_CLIENT
  }

  function LastSeen(c: Client): real {
    if c.log == [] then 0.0 else c.log[|c.log| - 1].seq_ as real
  }

  function Deliver(c: Client, news: seq<Event>): Client {
    if c.connected then c.(wire := c.wire + news) else c
  }

  function DeliverAll(clients: map<nat, Client>, news: seq<Event>): map<nat, Client> {
    map id | id in clients :: Deliver(clients[id], news)
  }

  predicate Enabled(s: State, a: Action) {
    match a
    case Emit(_, _) => true
    case Open(id, _) => !ClientOf(s, id).connected
    case Receive(id) => ClientOf(s, id).wire != []
    case Close(id) => ClientOf(s, id).connected
  }

  /** A client reconnects with the last sequence number it has seen; what was on the wire when a stream
      closed is lost. */
  function Step(s: State, a: Action): State
    requires Enabled(s, a)
  {
    match a
    case Emit(offset, payload) =>
      var (bus, e) := Publish(s.bus, offset, payload);
      State(bus, s.history + [e], DeliverAll(s.clients, [e]))
    case Open(id, offset) =>
      var c := ClientOf(s, id);
      var since := LastSeen(c);
      var news := ConnectNews(s.bus, since, offset);
      var joined := c.(connected := true, wire := ConnectSent(s.bus, since, offset),
                       resyncAt := if HasGap(s.bus, since) then Some(|s.history|) else None);
      State(ConnectBus(s.bus, since, offset), s.history + news, DeliverAll(s.clients, news)[id := joined])
    case Receive(id) =>
      var c := ClientOf(s, id);
      var e := c.wire[0];
      var received := if c.resyncAt.Some? then c.(log := [e], base := c.resyncAt.value, resyncAt := None)
                      else c.(log := c.log + [e]);
      s.(clients := s.clients[id := received.(wire := c.wire[1..])])
    case Close(id) =>
      s.(clients := s.clients[id := ClientOf(s, id).(connected := false, wire := [], resyncAt := None)])
  }

  function Initial(max: nat): State {
    State(Bus(max, 0, []), [], map[])
  }

  function Run(s: State, actions: seq<Action>): Option<State>
    decreases |actions|
  {
    if actions == [] then Some(s)
    else if Enabled(s, actions[0]) then Run(Step(s, actions[0]), actions[1..])
    else None
  }

  // ----- The invariant -----

  ghost predicate Increasing(h: seq<Event>) {
    forall i, j :: 0 <= i < j < |h| ==> h[i].seq_ < h[j].seq_
  }

  ghost predicate BusInv(s: State) {
    && Increasing(s.history)
    && (forall i :: 0 <= i < |s.history| ==> 1 <= s.history[i].seq_ <= s.bus.lastSeq)
    && s.bus.buffer == Newest(s.history, s.bus.max)
  }

  /** log, followed by the wire when connected, is a stretch of the history that starts at base. */
  ghost predicate ClientInv(h: seq<Event>, c: Client) {
    && c.base <= |h|
    && (c.base > 0 ==> c.log != [])
    && c.log <= h[c.base..]
    && (c.connected ==>
          match c.resyncAt
          case None => c.log + c.wire == h[c.base..]
          case Some(at) => at < |h| && c.wire == h[at..])
    && (!c.connected ==> c.wire == [] && c.resyncAt == None)
  }

  ghost predicate Inv(s: State) {
    && s.bus.max > 0
    && BusInv(s)
    && forall id :: id in s.clients ==> ClientInv(s.history, s.clients[id])
  }

  lemma {:induction false} AfterOfIncreasing(h: seq<Event>, since: real, k: nat)
    requires Increasing(h) && k <= |h|
    requires forall i :: 0 <= i < k ==> h[i].seq_ as real <= since
    requires forall i :: k <= i < |h| ==> h[i].seq_ as real > since
    ensures After(h, since) == h[k..]
    decreases |h|
  {
    if h != [] {
      var rest := h[1..];
      assert Increasing(rest);
      if k > 0 {
        AfterOfIncreasing(rest, since, k - 1);
        assert h[k..] == rest[k - 1..];
      } else {
        AfterOfIncreasing(rest, since, 0);
        assert After(h, since) == [h[0]] + rest;
      }
    }
  }

  lemma PublishKeepsBus(s: State, offset: int, payload: Payload, t: State)
    requires BusInv(s)
    requires t.bus == Publish(s.bus, offset, payload).0
    requires t.history == s.history + [Publish(s.bus, offset, payload).1]
    ensures BusInv(t)
  {
    var e := Publish(s.bus, offset, payload).1;
    var max := s.bus.max;
    assert Newest(s.bus.buffer + [e], max) == Newest(t.history, max);
  }

  lemma DeliverKeepsClient(h: seq<Event>, c: Client, e: Event)
    requires ClientInv(h, c)
    ensures ClientInv(h + [e], Deliver(c, [e]))
  {
    var h' := h + [e];
    assert h'[c.base..] == h[c.base..] + [e];
    if c.connected {
      match c.resyncAt {
        case None => assert c.log + (c.wire + [e]) == c.log + c.wire + [e];
        case Some(at) => assert h'[at..] == h[at..] + [e];
      }
    }
  }

  /** An event the buffer has dropped and the client has not seen leaves a gap. */
  lemma UnseenDropLeavesGap(h: seq<Event>, n: nat, dropped: nat, since: real)
    requires Increasing(h) && (forall i :: 0 <= i < |h| ==> 1 <= h[i].seq_)
    requires n < dropped < |h|
    requires since == if n == 0 then 0.0 else h[n - 1].seq_ as real
    ensures since < h[dropped].seq_ as real - 1.0
  {
    assert h[n].seq_ < h[dropped].seq_;
    if n > 0 {
      assert h[n - 1].seq_ < h[n].seq_;
    }
  }

  lemma SeenIff(h: seq<Event>, n: nat, since: real, i: nat)
    requires Increasing(h) && (forall i :: 0 <= i < |h| ==> 1 <= h[i].seq_)
    requires n <= |h| && i < |h|
    requires since == if n == 0 then 0.0 else h[n - 1].seq_ as real
    ensures h[i].seq_ as real <= since <==> i < n
  {
  }

  lemma AfterOfSuffix(h: seq<Event>, dropped: nat, n: nat, since: real)
    requires Increasing(h) && (forall i :: 0 <= i < |h| ==> 1 <= h[i].seq_)
    requires dropped <= n <= |h| && since == if n == 0 then 0.0 else h[n - 1].seq_ as real
    ensures After(h[dropped..], since) == h[n..]
  {
    var buffer, k := h[dropped..], n - dropped;
    forall i | 0 <= i < |buffer| ensures buffer[i].seq_ as real <= since <==> i < k {
      SeenIff(h, n, since, dropped + i);
    }
    AfterOfIncreasing(buffer, since, k);
    assert buffer[k..] == h[n..];
  }

  /** Replay: without a gap, the buffered events after the last seen one are exactly the history the
      client is missing. */
  lemma ReplayIsTheRest(h: seq<Event>, max: nat, n: nat, since: real)
    requires max > 0 && Increasing(h) && (forall i :: 0 <= i < |h| ==> 1 <= h[i].seq_)
    requires n <= |h| && since == if n == 0 then 0.0 else h[n - 1].seq_ as real
    requires h != [] ==> since >= Newest(h, max)[0].seq_ as real - 1.0
    ensures After(Newest(h, max), since) == h[n..]
  {
    var dropped := if |h| <= max then 0 else |h| - max;
    assert Newest(h, max) == h[dropped..];
    if n < dropped {
      UnseenDropLeavesGap(h, n, dropped, since);
    }
    AfterOfSuffix(h, dropped, n, since);
  }

  lemma ClientReplay(s: State, c: Client)
    requires Inv(s) && ClientInv(s.history, c)
    requires !HasGap(s.bus, LastSeen(c))
    ensures c.log + After(s.bus.buffer, LastSeen(c)) == s.history[c.base..]
  {
    var h, n := s.history, c.base + |c.log|;
    assert c.log == h[c.base..][..|c.log|];
    if c.log != [] {
      assert c.log[|c.log| - 1] == h[n - 1];
    }
    ReplayIsTheRest(h, s.bus.max, n, LastSeen(c));
    assert h[c.base..] == c.log + h[n..];
  }

  lemma StepKeepsInv(s: State, a: Action)
    requires Inv(s) && Enabled(s, a)
    ensures Inv(Step(s, a))
  {
    var t := Step(s, a);
    match a {
      case Emit(offset, payload) =>
        PublishKeepsBus(s, offset, payload, t);
        forall id | id in t.clients ensures ClientInv(t.history, t.clients[id]) {
          DeliverKeepsClient(s.history, s.clients[id], Publish(s.bus, offset, payload).1);
        }
      case Open(id, offset) =>
        OpenKeepsInv(s, id, offset);
      case Receive(id) =>
        var c := s.clients[id];
        assert ClientInv(s.history, c);
        ReceiveKeepsClient(s.history, c, t.clients[id]);
      case Close(id) =>
        assert ClientInv(s.history, s.clients[id]);
    }
  }

  lemma ReceiveKeepsClient(h: seq<Event>, c: Client, d: Client)
    requires ClientInv(h, c) && c.wire != []
    requires d == (if c.resyncAt.Some? then c.(log := [c.wire[0]], base := c.resyncAt.value, resyncAt := None)
                   else c.(log := c.log + [c.wire[0]])).(wire := c.wire[1..])
    ensures ClientInv(h, d)
  {
    assert c.wire == [c.wire[0]] + c.wire[1..];
    assert d.log + d.wire == (if c.resyncAt.Some? then c.wire else c.log + c.wire);
  }

  lemma ClientOfInv(s: State, id: nat)
    requires Inv(s)
    ensures ClientInv(s.history, ClientOf(s, id))
  {
    if id !in s.clients {
      assert s.history[0..] == s.history;
    }
  }

  /** A client that opens after a gap waits for the resync message, the last of the history. */
  lemma JoinAfterGap(h: seq<Event>, c: Client, e: Event)
    requires ClientInv(h, c) && !c.connected
    ensures ClientInv(h + [e], c.(connected := true, wire := [e], resyncAt := Some(|h|)))
  {
    DeliverKeepsClient(h, c, e);
    assert (h + [e])[|h|..] == [e];
  }

  lemma OpenWithGap(s: State, id: nat, offset: int)
    requires Inv(s) && Enabled(s, Open(id, offset)) && HasGap(s.bus, LastSeen(ClientOf(s, id)))
    ensures Inv(Step(s, Open(id, offset)))
  {
    var t := Step(s, Open(id, offset));
    var payload := ResyncRequired(LastSeen(ClientOf(s, id)));
    PublishKeepsBus(s, offset, payload, t);
    forall j | j in t.clients ensures ClientInv(t.history, t.clients[j]) {
      ClientOfInv(s, j);
      if j == id {
        JoinAfterGap(s.history, ClientOf(s, id), Publish(s.bus, offset, payload).1);
      } else {
        DeliverKeepsClient(s.history, ClientOf(s, j), Publish(s.bus, offset, payload).1);
      }
    }
  }

  lemma DeliverNothing(c: Client)
    ensures Deliver(c, []) == c
  {
    assert c.wire + [] == c.wire;
  }

  lemma OpenWithoutGap(s: State, id: nat, offset: int)
    requires Inv(s) && Enabled(s, Open(id, offset)) && !HasGap(s.bus, LastSeen(ClientOf(s, id)))
    ensures Inv(Step(s, Open(id, offset)))
  {
    var t := Step(s, Open(id, offset));
    assert t.history == s.history;
    forall j | j in t.clients ensures ClientInv(t.history, t.clients[j]) {
      ClientOfInv(s, j);
      if j == id {
        ClientReplay(s, ClientOf(s, id));
      } else {
        DeliverNothing(s.clients[j]);
      }
    }
  }

  lemma OpenKeepsInv(s: State, id: nat, offset: int)
    requires Inv(s) && Enabled(s, Open(id, offset))
    ensures Inv(Step(s, Open(id, offset)))
  {
    if HasGap(s.bus, LastSeen(ClientOf(s, id))) {
      OpenWithGap(s, id, offset);
    } else {
      OpenWithoutGap(s, id, offset);
    }
  }

  lemma {:induction false} RunKeepsInv(s: State, actions: seq<Action>)
    requires Inv(s) && Run(s, actions).Some?
    ensures Inv(Run(s, actions).value)
    decreases |actions|
  {
    if actions != [] {
      StepKeepsInv(s, actions[0]);
      RunKeepsInv(Step(s, actions[0]), actions[1..]);
    }
  }

  // ----- The promises -----

  ghost predicate Reachable(max: nat, s: State) {
    exists actions :: Run(Initial(max), actions) == Some(s)
  }

  lemma ReachableInv(max: nat, s: State)
    requires max > 0 && Reachable(max, s)
    ensures Inv(s)
  {
    var actions :| Run(Initial(max), actions) == Some(s);
    RunKeepsInv(Initial(max), actions);
  }

  /** Whatever the clock does, sequence numbers strictly increase, and the buffer is the newest stretch of
      the history that the bound allows. */
  lemma BufferIsNewestHistory(max: nat, s: State)
    requires max > 0 && Reachable(max, s)
    ensures Increasing(s.history)
    ensures s.bus.buffer == Newest(s.history, s.bus.max)
  {
    ReachableInv(max, s);
  }

  /** A client that has never been sent a resync message has received, across all its connections, a prefix
      of everything ever published: in order, nothing lost, nothing twice. */
  lemma ReplayIsLossless(max: nat, s: State, id: nat)
    requires max > 0 && Reachable(max, s)
    requires ClientOf(s, id).base == 0 && ClientOf(s, id).resyncAt == None
    ensures ClientOf(s, id).log <= s.history
    ensures ClientOf(s, id).connected ==> ClientOf(s, id).log + ClientOf(s, id).wire == s.history
  {
    ReachableInv(max, s);
    assert s.history[0..] == s.history;
    if id in s.clients {
      assert ClientInv(s.history, s.clients[id]);
    }
  }

  /** After a resync message the same holds from that message on. */
  lemma ResyncRestartsTheLog(max: nat, s: State, id: nat)
    requires max > 0 && Reachable(max, s)
    ensures ClientOf(s, id).base <= |s.history|
    ensures ClientOf(s, id).log <= s.history[ClientOf(s, id).base..]
    ensures ClientOf(s, id).connected && ClientOf(s, id).resyncAt == None ==>
              ClientOf(s, id).log + ClientOf(s, id).wire == s.history[ClientOf(s, id).base..]
  {
    ReachableInv(max, s);
    if id in s.clients {
      assert ClientInv(s.history, s.clients[id]);
    }
  }

  /** The positive buffer bound is needed: a bus that keeps nothing never reports a gap, and a client that
      connects late silently misses what was published before. */
  lemma EmptyBufferLosesEvents(offset: int, payload: Payload) returns (s: State)
    ensures Reachable(0, s)
    ensures ClientOf(s, 0).connected && ClientOf(s, 0).base == 0 && ClientOf(s, 0).resyncAt == None
    ensures ClientOf(s, 0).log + ClientOf(s, 0).wire != s.history
  {
    var actions := [Emit(offset, payload), Open(0, offset)];
    var one := Step(Initial(0), actions[0]);
    s := Step(one, actions[1]);
    assert actions[1..] == [Open(0, offset)] && actions[1..][1..] == [];
    assert Run(s, []) == Some(s);
    assert Run(one, actions[1..]) == Some(s);
    assert Run(Initial(0), actions) == Some(s);
    assert one.bus.buffer == [];
    assert ClientOf(s, 0).log + ClientOf(s, 0).wire == [] && |s.history| == 1;
  }
}
