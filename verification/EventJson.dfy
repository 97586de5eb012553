/** The JSON text of a published event (sseWrite in apps/runtime-worker/src/health/events.routes.ts), as much of
    section 25.5 of ECMA-262, "The JSON Object", as events need. It shows that what the transport asks of JSON can
    be met, and gives the transport's guarantee without a hypothesis. */
module EventJson {
  import opened Option
  import opened EventReplay
  import opened EventTransport
  import opened SseStream
  import Text

  // ----- The text -----

  /** Quotes, backslashes and line feeds are written as two characters. */
  function Escaped(c: char): string {
    if c == '\n' then "\\n" else if c == '"' then "\\\"" else if c == '\\' then "\\\\" else [c]
  }

  function Escape(s: string): string {
    if s == [] then [] else Escaped(s[0]) + Escape(s[1..])
  }

  /** The number of a resync message is the last one its client has seen, so a whole one. */
  predicate Printable(p: Payload) {
    p.ResyncRequired? ==> Whole(p.fromSeq) as real == p.fromSeq
  }

  function Whole(x: real): nat {
    if x < 0.0 then 0 else x.Floor
  }

  const RESYNC_HEAD := "\"event\":\"resync_required\",\"from_seq\":"

  function PayloadText(p: Payload): string {
    match p
    case Data(body) => "\"data\":\"" + Escape(body) + "\"}"
    case ResyncRequired(fromSeq) => RESYNC_HEAD + Text.Dec(Whole(fromSeq)) + "}"
  }

  function JsonText(e: Event): string {
    "{\"seq\":" + (Text.Dec(e.seq_) + "," + PayloadText(e.payload))
  }

  // ----- A text says which event it is of -----

  /** Where one text begins another, what stands before the first c of each is the same. */
  lemma FirstPart(a: string, b: string, c: char, x: string, y: string)
    requires c !in a && c !in b
    requires a + [c] + x <= b + [c] + y
    ensures a == b && x <= y
  {
    var s, t := a + [c] + x, b + [c] + y;
    Text.IndexAfterPrefix(a, c, x);
    Text.IndexAfterPrefix(b, c, y);
    SameIndex(s, t, c);
    assert s == t[..|s|];
    assert a == s[..|a|] && b == t[..|b|];
    assert x == s[|a| + 1..] && y == t[|b| + 1..];
  }

  lemma SameIndex(s: string, t: string, c: char)
    requires s <= t && Text.IndexOfChar(s, c) < |s|
    ensures Text.IndexOfChar(t, c) == Text.IndexOfChar(s, c)
  {
    var i := Text.IndexOfChar(s, c);
    assert t[i] == c && forall k :: 0 <= k < i ==> t[k] == s[k];
  }

  /** A string literal after its opening quote. */
  function Closed(s: string, end: string): string {
    Escape(s) + "\"" + end
  }

  lemma ClosedCons(s: string, end: string)
    requires s != []
    ensures Closed(s, end) == Escaped(s[0]) + Closed(s[1..], end)
  {
  }

  /** Only the closing quote is a bare one. */
  lemma ClosedHead(s: string, end: string)
    ensures Closed(s, end)[0] == '"' <==> s == []
  {
    if s != [] {
      ClosedCons(s, end);
    }
  }

  /** Where one closed string literal begins another, they are equal. */
  lemma {:induction false} ClosedPrefix(a: string, b: string, end: string)
    requires Closed(a, end) <= Closed(b, end)
    ensures a == b
    decreases |a|
  {
    ClosedHead(a, end);
    ClosedHead(b, end);
    assert Closed(a, end)[0] == Closed(b, end)[0];
    if a != [] && b != [] {
      ClosedCons(a, end);
      ClosedCons(b, end);
      FirstEscaped(a[0], Closed(a[1..], end), b[0], Closed(b[1..], end));
      ClosedPrefix(a[1..], b[1..], end);
      assert a == [a[0]] + a[1..] && b == [b[0]] + b[1..];
    }
  }

  lemma FirstEscaped(c: char, x: string, d: char, y: string)
    requires Escaped(c) + x <= Escaped(d) + y
    ensures c == d && x <= y
  {
    var s, t := Escaped(c) + x, Escaped(d) + y;
    assert s == t[..|s|];
    assert s[0] == t[0];
    assert s[0] == '\\' ==> s[1] == t[1];
    assert x == s[|Escaped(c)|..] && y == t[|Escaped(d)|..];
  }

  lemma DropCommon(common: string, x: string, y: string)
    requires common + x <= common + y
    ensures x <= y
  {
    assert x == (common + x)[|common|..] && y == (common + y)[|common|..];
  }

  lemma KindsDiffer(p: Payload, q: Payload)
    requires PayloadText(p) <= PayloadText(q)
    ensures p.Data? == q.Data?
  {
    var s, t := PayloadText(p), PayloadText(q);
    assert s[1] == t[1];
    assert s[1] == (if p.Data? then 'd' else 'e') && t[1] == (if q.Data? then 'd' else 'e');
  }

  lemma PayloadPrefix(p: Payload, q: Payload)
    requires Printable(p) && Printable(q) && PayloadText(p) <= PayloadText(q)
    ensures p == q
  {
    KindsDiffer(p, q);
    if p.Data? {
      DataPrefix(p.body, q.body);
    } else {
      ResyncPrefix(Whole(p.fromSeq), Whole(q.fromSeq));
    }
  }

  lemma DataPrefix(a: string, b: string)
    requires PayloadText(Data(a)) <= PayloadText(Data(b))
    ensures a == b
  {
    var head := "\"data\":\"";
    assert PayloadText(Data(a)) == head + Closed(a, "}") && PayloadText(Data(b)) == head + Closed(b, "}");
    DropCommon(head, Closed(a, "}"), Closed(b, "}"));
    ClosedPrefix(a, b, "}");
  }

  lemma ResyncPrefix(m: nat, n: nat)
    requires RESYNC_HEAD + Text.Dec(m) + "}" <= RESYNC_HEAD + Text.Dec(n) + "}"
    ensures m == n
  {
    var x, y := Text.Dec(m) + ['}'] + "", Text.Dec(n) + ['}'] + "";
    assert RESYNC_HEAD + Text.Dec(m) + "}" == RESYNC_HEAD + x && RESYNC_HEAD + Text.Dec(n) + "}" == RESYNC_HEAD + y;
    DropCommon(RESYNC_HEAD, x, y);
    FirstPart(Text.Dec(m), Text.Dec(n), '}', "", "");
    Text.DecInjective(m, n);
  }

  /** No event's text begins another's: the text names its event and cannot be cut short. */
  lemma TextNamesEvent(a: Event, b: Event)
    requires Printable(a.payload) && Printable(b.payload) && JsonText(a) <= JsonText(b)
    ensures a == b
  {
    var x := Text.Dec(a.seq_) + [','] + PayloadText(a.payload);
    var y := Text.Dec(b.seq_) + [','] + PayloadText(b.payload);
    DropCommon("{\"seq\":", x, y);
    FirstPart(Text.Dec(a.seq_), Text.Dec(b.seq_), ',', PayloadText(a.payload), PayloadText(b.payload));
    Text.DecInjective(a.seq_, b.seq_);
    PayloadPrefix(a.payload, b.payload);
  }

  lemma {:induction false} EscapeIsOneLine(s: string)
    ensures '\n' !in Escape(s)
  {
    if s != [] {
      EscapeIsOneLine(s[1..]);
    }
  }

  lemma OneLineParts(a: string, b: string)
    requires '\n' !in a && '\n' !in b
    ensures '\n' !in a + b
  {
  }

  lemma PayloadIsOneLine(p: Payload)
    ensures '\n' !in PayloadText(p)
  {
    match p {
      case Data(body) =>
        EscapeIsOneLine(body);
        OneLineParts("\"data\":\"", Escape(body));
        OneLineParts("\"data\":\"" + Escape(body), "\"}");
      case ResyncRequired(fromSeq) =>
        OneLineParts(RESYNC_HEAD, Text.Dec(Whole(fromSeq)));
        OneLineParts(RESYNC_HEAD + Text.Dec(Whole(fromSeq)), "}");
    }
  }

  lemma TextIsOneLine(e: Event)
    ensures '\n' !in JsonText(e)
  {
    PayloadIsOneLine(e.payload);
    OneLineParts(Text.Dec(e.seq_), ",");
    OneLineParts(Text.Dec(e.seq_) + ",", PayloadText(e.payload));
    OneLineParts("{\"seq\":", Text.Dec(e.seq_) + "," + PayloadText(e.payload));
  }

  // ----- Parsing -----

  /** The event whose text this is. */
  ghost function JsonParse(text: string): (r: Option<Event>)
    ensures r.Some? ==> Printable(r.value.payload) && JsonText(r.value) == text
  {
    if exists e: Event :: Printable(e.payload) && JsonText(e) == text
    then var e: Event :| Printable(e.payload) && JsonText(e) == text; Some(e)
    else None
  }

  ghost function Parser(): string -> Option<Event> {
    (text: string) => JsonParse(text)
  }

  ghost predicate AllPrintable(events: seq<Event>) {
    forall e :: e in events ==> Printable(e.payload)
  }

  /** What the transport asks of JSON holds of this text, for all events at once. */
  lemma JsonUndoes(events: seq<Event>)
    requires AllPrintable(events)
    ensures Undoes(Parser(), JsonText, events)
  {
    forall e | e in events
      ensures Parser()(JsonText(e)) == Some(e) && '\n' !in JsonText(e)
    {
      TextIsOneLine(e);
      TextNamesEvent(JsonParse(JsonText(e)).value, e);
    }
    forall e, n: nat | e in events && n < |JsonText(e)|
      ensures Parser()(JsonText(e)[..n]) == None
    {
      var text := JsonText(e)[..n];
      if JsonParse(text).Some? {
        TextNamesEvent(JsonParse(text).value, e);
      }
    }
  }

  // ----- The transport with this text -----

  ghost predicate EmitsPrintable(actions: seq<TextAction>) {
    forall a :: a in actions && a.Emits? ==> Printable(a.payload)
  }

  lemma StepPrints(s: State, a: TextAction)
    requires TextEnabled(JsonText, s, a) && AllPrintable(s.history)
    requires a.Emits? ==> Printable(a.payload)
    ensures AllPrintable(TextStep(Parser(), JsonText, s, a).history)
  {
    if a.Opens? {
      var c := ClientOf(s, a.id);
      var n := if c.log == [] then 0 else c.log[|c.log| - 1].seq_;
      assert LastSeen(c) == n as real;
    }
  }

  lemma {:induction false} RunPrints(s: State, actions: seq<TextAction>)
    requires TextRun(Parser(), JsonText, s, actions).Some?
    requires AllPrintable(s.history) && EmitsPrintable(actions)
    ensures AllPrintable(TextRun(Parser(), JsonText, s, actions).value.history)
    decreases |actions|
  {
    if actions != [] {
      assert actions[0] in actions && forall a :: a in actions[1..] ==> a in actions;
      StepPrints(s, actions[0]);
      RunPrints(TextStep(Parser(), JsonText, s, actions[0]), actions[1..]);
    }
  }

  /** The guarantee without a hypothesis on JSON: whatever is emitted, over any connections, chunks and cuts, a
      client has parsed a beginning of the history since its latest resync message, or of all of it. */
  lemma JsonIsLossless(max: nat, actions: seq<TextAction>, id: nat)
    requires max > 0 && EmitsPrintable(actions)
    requires TextRun(Parser(), JsonText, Initial(max), actions).Some?
    ensures var s := TextRun(Parser(), JsonText, Initial(max), actions).value;
            var c := ClientOf(s, id);
            && Increasing(s.history)
            && c.base <= |s.history| && c.log <= s.history[c.base..]
            && (c.base == 0 && c.resyncAt == None ==> c.log <= s.history)
  {
    RunPrints(Initial(max), actions);
    JsonUndoes(TextRun(Parser(), JsonText, Initial(max), actions).value.history);
    TextIsLossless(Parser(), JsonText, max, actions, id);
  }
}
