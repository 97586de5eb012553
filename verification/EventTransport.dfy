/** The event bus and its streams together (apps/runtime-worker/src/health/events.routes.ts and
    apps/runtime-mcp/src/shared/sse.ts): a client that has nothing but the text of its connections, cut into any
    chunks and broken off at any character, knows what the event protocol says it has received. */
module EventTransport {
  import opened Option
  import opened EventReplay
  import opened SseStream

  // ----- Receiving several events at once -----

  function Receives(id: nat, k: nat): seq<Action> {
    if k == 0 then [] else [Receive(id)] + Receives(id, k - 1)
  }

  /** A client that has taken these events off its wire: a pending resync message restarts the log. */
  function Took(c: Client, got: seq<Event>): Client {
    if got == [] then c
    else if c.resyncAt.Some? then c.(log := got, base := c.resyncAt.value, resyncAt := None)
    else c.(log := c.log + got)
  }

  function Taken(s: State, id: nat, k: nat): State
    requires k <= |ClientOf(s, id).wire|
  {
    var c := ClientOf(s, id);
    if k == 0 then s else s.(clients := s.clients[id := Took(c, c.wire[..k]).(wire := c.wire[k..])])
  }

  lemma {:induction false} ReceivesTake(s: State, id: nat, k: nat)
    requires k <= |ClientOf(s, id).wire|
    ensures Run(s, Receives(id, k)) == Some(Taken(s, id, k))
    decreases k
  {
    if k > 0 {
      TakeOneMore(s, id, k);
      ReceivesTake(Step(s, Receive(id)), id, k - 1);
      assert Receives(id, k)[1..] == Receives(id, k - 1);
    }
  }

  lemma UpdateTwice(clients: map<nat, Client>, id: nat, c: Client, d: Client)
    ensures clients[id := c][id := d] == clients[id := d]
  {
  }

  lemma TookOneMore(c: Client, k: nat)
    requires 0 < k <= |c.wire|
    ensures var d := Took(c, c.wire[..1]).(wire := c.wire[1..]);
            && k - 1 <= |d.wire|
            && Took(d, d.wire[..k - 1]).(wire := d.wire[k - 1..]) == Took(c, c.wire[..k]).(wire := c.wire[k..])
  {
    var first, rest := c.wire[..1], c.wire[1..];
    assert rest[k - 1..] == c.wire[k..];
    if k > 1 {
      assert first + rest[..k - 1] == c.wire[..k];
      assert c.log + first + rest[..k - 1] == c.log + (first + rest[..k - 1]);
    }
  }

  lemma ReceiveIsTakingOne(s: State, id: nat)
    requires ClientOf(s, id).wire != []
    ensures Enabled(s, Receive(id)) && Step(s, Receive(id)) == Taken(s, id, 1)
  {
    var c := ClientOf(s, id);
    assert c.wire[..1] == [c.wire[0]];
  }

  lemma TakeOneMore(s: State, id: nat, k: nat)
    requires 0 < k <= |ClientOf(s, id).wire|
    ensures Enabled(s, Receive(id)) && k - 1 <= |ClientOf(Step(s, Receive(id)), id).wire|
    ensures Taken(Step(s, Receive(id)), id, k - 1) == Taken(s, id, k)
  {
    var c := ClientOf(s, id);
    ReceiveIsTakingOne(s, id);
    TookOneMore(c, k);
    if k > 1 {
      var d := Took(c, c.wire[..1]).(wire := c.wire[1..]);
      UpdateTwice(s.clients, id, d, Took(d, d.wire[..k - 1]).(wire := d.wire[k - 1..]));
    }
  }

  lemma {:induction false} RunAppend(s: State, first: seq<Action>, second: seq<Action>)
    requires Run(s, first).Some?
    ensures Run(s, first + second) == Run(Run(s, first).value, second)
    decreases |first|
  {
    if first == [] {
      assert first + second == second;
    } else {
      assert (first + second)[1..] == first[1..] + second;
      RunAppend(Step(s, first[0]), first[1..], second);
    }
  }

  lemma ReachableOn(max: nat, s: State, actions: seq<Action>)
    requires Reachable(max, s) && Run(s, actions).Some?
    ensures Reachable(max, Run(s, actions).value)
  {
    var before :| Run(Initial(max), before) == Some(s);
    RunAppend(Initial(max), before, actions);
  }

  lemma RunOne(s: State, a: Action)
    requires Enabled(s, a)
    ensures Run(s, [a]) == Some(Step(s, a))
  {
    assert [a][1..] == [];
  }

  // ----- Reading text is receiving events -----

  type Parser = string -> Option<Event>
  type Printer = Event -> string

  /** JSON as far as these events go: their texts parse back, and no cut-off text parses. */
  ghost predicate Undoes(parse: Parser, print_: Printer, events: seq<Event>) {
    RoundTrips(parse, print_, events) && PrefixFree(parse, print_, events)
  }

  lemma UndoesSome(parse: Parser, print_: Printer, events: seq<Event>, some: seq<Event>)
    requires Undoes(parse, print_, events) && forall e :: e in some ==> e in events
    ensures Undoes(parse, print_, some)
  {
  }

  /** These chunks are a beginning of a text that carries what is on the client's wire. */
  ghost predicate Carries(print_: Printer, frames: seq<Frame<Event>>, chunks: seq<string>, wire: seq<Event>) {
    Messages(frames) == wire && Concat(chunks) <= Print(print_, frames)
  }

  lemma TextIsPrefixOfWire(parse: Parser, print_: Printer, frames: seq<Frame<Event>>, chunks: seq<string>, wire: seq<Event>)
    requires Undoes(parse, print_, wire)
    requires Carries(print_, frames, chunks, wire)
    ensures TextEvents(parse, Concat(chunks)) <= wire
    ensures Concat(chunks) == Print(print_, frames) ==> TextEvents(parse, Concat(chunks)) == wire
  {
    var text := Concat(chunks);
    assert text == Print(print_, frames)[..|text|];
    CutStreamIsPrefix(parse, print_, frames, |text|);
    PrintThenParse(parse, print_, frames);
  }

  /** Wherever the text breaks off, what the parser makes of it is what some number of receive steps delivers. */
  lemma ReadingIsReceiving(parse: Parser, print_: Printer, s: State, id: nat,
                           frames: seq<Frame<Event>>, chunks: seq<string>)
    requires Undoes(parse, print_, ClientOf(s, id).wire)
    requires Carries(print_, frames, chunks, ClientOf(s, id).wire)
    ensures var got := TextEvents(parse, Concat(chunks));
            && |got| <= |ClientOf(s, id).wire|
            && Run(s, Receives(id, |got|)) == Some(Taken(s, id, |got|))
            && got == ClientOf(s, id).wire[..|got|]
  {
    TextIsPrefixOfWire(parse, print_, frames, chunks, ClientOf(s, id).wire);
    ReceivesTake(s, id, |TextEvents(parse, Concat(chunks))|);
  }

  // ----- The protocol over text -----

  /** Read is the whole life of a connection on the client's side: it has read these chunks when the stream ends.
      It keeps nothing of the connection but the events the parser yields. */
  datatype TextAction =
    | Emits(offset: int, payload: Payload)
    | Opens(id: nat, offset: int)
    | Reads(id: nat, frames: seq<Frame<Event>>, chunks: seq<string>)

  ghost predicate TextEnabled(print_: Printer, s: State, a: TextAction) {
    match a
    case Emits(_, _) => true
    case Opens(id, offset) => Enabled(s, Open(id, offset))
    case Reads(id, frames, chunks) =>
      ClientOf(s, id).connected && Carries(print_, frames, chunks, ClientOf(s, id).wire)
  }

  ghost function TextStep(parse: Parser, print_: Printer, s: State, a: TextAction): State
    requires TextEnabled(print_, s, a)
  {
    match a
    case Emits(offset, payload) => Step(s, Emit(offset, payload))
    case Opens(id, offset) => Step(s, Open(id, offset))
    case Reads(id, _, chunks) =>
      var c := Took(ClientOf(s, id), TextEvents(parse, Concat(chunks)));
      s.(clients := s.clients[id := c.(connected := false, wire := [], resyncAt := None)])
  }

  ghost function TextRun(parse: Parser, print_: Printer, s: State, actions: seq<TextAction>): Option<State>
    decreases |actions|
  {
    if actions == [] then Some(s)
    else if TextEnabled(print_, s, actions[0]) then TextRun(parse, print_, TextStep(parse, print_, s, actions[0]), actions[1..])
    else None
  }

  lemma TakeThenClose(s: State, id: nat, got: seq<Event>)
    requires ClientOf(s, id).connected && got <= ClientOf(s, id).wire
    ensures var t := Taken(s, id, |got|);
            && Enabled(t, Close(id))
            && Step(t, Close(id)) == s.(clients := s.clients[id :=
                 Took(ClientOf(s, id), got).(connected := false, wire := [], resyncAt := None)])
  {
    var c := ClientOf(s, id);
    var k := |got|;
    assert got == c.wire[..k];
    if k > 0 {
      UpdateTwice(s.clients, id, Took(c, got).(wire := c.wire[k..]),
                  Took(c, got).(connected := false, wire := [], resyncAt := None));
    }
  }

  lemma ReadThenClose(parse: Parser, print_: Printer, s: State, a: TextAction)
    requires a.Reads? && TextEnabled(print_, s, a)
    requires Undoes(parse, print_, ClientOf(s, a.id).wire)
    ensures var receives := Receives(a.id, |TextEvents(parse, Concat(a.chunks))|);
            Run(s, receives + [Close(a.id)]) == Some(TextStep(parse, print_, s, a))
  {
    var got := TextEvents(parse, Concat(a.chunks));
    ReadingIsReceiving(parse, print_, s, a.id, a.frames, a.chunks);
    var t := Taken(s, a.id, |got|);
    RunAppend(s, Receives(a.id, |got|), [Close(a.id)]);
    TakeThenClose(s, a.id, got);
    RunOne(t, Close(a.id));
  }

  /** What is on a client's wire is all of the history it is missing. */
  lemma WireIsTheRest(max: nat, s: State, id: nat)
    requires max > 0 && Reachable(max, s) && ClientOf(s, id).connected
    ensures var c := ClientOf(s, id);
            var start := if c.resyncAt.Some? then c.resyncAt.value else c.base + |c.log|;
            start <= |s.history| && c.wire == s.history[start..]
  {
    ReachableInv(max, s);
    var c := ClientOf(s, id);
    assert ClientInv(s.history, c);
    if c.resyncAt.None? {
      var rest := s.history[c.base..];
      assert c.log + c.wire == rest;
      assert c.wire == rest[|c.log|..];
    }
  }

  lemma TextStepReaches(parse: Parser, print_: Printer, max: nat, s: State, a: TextAction)
    requires max > 0 && Reachable(max, s) && TextEnabled(print_, s, a)
    requires Undoes(parse, print_, s.history)
    ensures Reachable(max, TextStep(parse, print_, s, a))
  {
    match a {
      case Emits(offset, payload) =>
        RunOne(s, Emit(offset, payload));
        ReachableOn(max, s, [Emit(offset, payload)]);
      case Opens(id, offset) =>
        RunOne(s, Open(id, offset));
        ReachableOn(max, s, [Open(id, offset)]);
      case Reads(id, frames, chunks) =>
        WireIsTheRest(max, s, id);
        UndoesSome(parse, print_, s.history, ClientOf(s, id).wire);
        ReadThenClose(parse, print_, s, a);
        ReachableOn(max, s, Receives(id, |TextEvents(parse, Concat(chunks))|) + [Close(id)]);
    }
  }

  lemma {:induction false} HistoryGrows(parse: Parser, print_: Printer, s: State, actions: seq<TextAction>)
    requires TextRun(parse, print_, s, actions).Some?
    ensures s.history <= TextRun(parse, print_, s, actions).value.history
    decreases |actions|
  {
    if actions != [] {
      HistoryGrows(parse, print_, TextStep(parse, print_, s, actions[0]), actions[1..]);
    }
  }

  /** The protocol over text refines the protocol over events: whatever it can reach, the event protocol can.
      Of JSON this asks only that it undoes what is published in the run. */
  lemma {:induction false} TextRefinesEvents(parse: Parser, print_: Printer, max: nat, s: State, actions: seq<TextAction>)
    requires max > 0 && Reachable(max, s) && TextRun(parse, print_, s, actions).Some?
    requires Undoes(parse, print_, TextRun(parse, print_, s, actions).value.history)
    ensures Reachable(max, TextRun(parse, print_, s, actions).value)
    decreases |actions|
  {
    if actions != [] {
      HistoryGrows(parse, print_, s, actions);
      UndoesSome(parse, print_, TextRun(parse, print_, s, actions).value.history, s.history);
      TextStepReaches(parse, print_, max, s, actions[0]);
      TextRefinesEvents(parse, print_, max, TextStep(parse, print_, s, actions[0]), actions[1..]);
    }
  }

  /** Over any number of connections, each read in any chunks and broken off at any character, with heartbeats
      anywhere, a client that was sent no resync message has parsed a prefix of everything ever published, in order,
      nothing lost, nothing twice and nothing garbled; otherwise the same holds from its latest resync message on. */
  lemma TextIsLossless(parse: Parser, print_: Printer, max: nat, actions: seq<TextAction>, id: nat)
    requires max > 0 && TextRun(parse, print_, Initial(max), actions).Some?
    requires Undoes(parse, print_, TextRun(parse, print_, Initial(max), actions).value.history)
    ensures var s := TextRun(parse, print_, Initial(max), actions).value;
            var c := ClientOf(s, id);
            && Increasing(s.history)
            && c.base <= |s.history| && c.log <= s.history[c.base..]
            && (c.base == 0 && c.resyncAt == None ==> c.log <= s.history)
  {
    var s := TextRun(parse, print_, Initial(max), actions).value;
    assert Run(Initial(max), []) == Some(Initial(max));
    TextRefinesEvents(parse, print_, max, Initial(max), actions);
    BufferIsNewestHistory(max, s);
    ResyncRestartsTheLog(max, s, id);
    if ClientOf(s, id).base == 0 && ClientOf(s, id).resyncAt == None {
      ReplayIsLossless(max, s, id);
    }
  }

  /** A connection read to the end of its text leaves the client with everything since its latest resync message. */
  lemma FullTextIsEverything(parse: Parser, print_: Printer, max: nat, s: State, a: TextAction)
    requires max > 0 && Reachable(max, s) && Undoes(parse, print_, s.history)
    requires a.Reads? && TextEnabled(print_, s, a) && Concat(a.chunks) == Print(print_, a.frames)
    ensures var t := TextStep(parse, print_, s, a);
            var c := ClientOf(t, a.id);
            c.base <= |t.history| && c.log == t.history[c.base..]
  {
    var c := ClientOf(s, a.id);
    WireIsTheRest(max, s, a.id);
    UndoesSome(parse, print_, s.history, c.wire);
    TextIsPrefixOfWire(parse, print_, a.frames, a.chunks, c.wire);
    ResyncRestartsTheLog(max, s, a.id);
    if c.resyncAt.Some? {
      PendingResync(max, s, a.id);
    }
  }

  lemma PendingResync(max: nat, s: State, id: nat)
    requires max > 0 && Reachable(max, s)
    requires ClientOf(s, id).connected && ClientOf(s, id).resyncAt.Some?
    ensures ClientOf(s, id).wire != []
  {
    ReachableInv(max, s);
    assert ClientInv(s.history, ClientOf(s, id));
  }

  /** The client's reading of one connection: it parses a beginning of what it is missing, and all of it when the
      text was not cut. */
  method ReadConnection(parse: Parser, ghost print_: Printer, ghost max: nat, ghost s: State, ghost id: nat,
                        ghost frames: seq<Frame<Event>>, chunks: seq<string>)
    returns (events: seq<Event>)
    requires max > 0 && Reachable(max, s) && Undoes(parse, print_, s.history)
    requires ClientOf(s, id).connected && Carries(print_, frames, chunks, ClientOf(s, id).wire)
    ensures var c := ClientOf(s, id);
            var start := if c.resyncAt.Some? then c.resyncAt.value else c.base + |c.log|;
            && start <= |s.history|
            && events <= s.history[start..]
            && (Concat(chunks) == Print(print_, frames) ==> events == s.history[start..])
  {
    events := ParseSseStream(parse, chunks);
    WireIsTheRest(max, s, id);
    UndoesSome(parse, print_, s.history, ClientOf(s, id).wire);
    TextIsPrefixOfWire(parse, print_, frames, chunks, ClientOf(s, id).wire);
  }
}
