/** The incremental parser of event streams (apps/runtime-mcp/src/shared/sse.ts) and the frames it reads
    (apps/runtime-worker/src/health/events.routes.ts): a subset of section 9.2 of the WHATWG HTML Standard,
    "Server-sent events". JSON is a pair of functions; text arrives already decoded, in arbitrary chunks. */
module SseStream {
  import opened Option
  import opened Sequences
  import Text

  const BLANK := "\n\n"
  const FIELD := "data: "

  // ----- Splitting on blank lines -----

  predicate BlankAt(s: string, i: int) {
    0 <= i && i + 1 < |s| && s[i] == '\n' && s[i + 1] == '\n'
  }

  /** Position of the first blank line, or |s|. */
  function FirstBlank(s: string): (i: nat)
    ensures i <= |s|
    ensures i < |s| ==> BlankAt(s, i)
    ensures forall k :: 0 <= k < i ==> !BlankAt(s, k)
  {
    if s == [] then 0
    else if BlankAt(s, 0) then 0
    else
      var i := FirstBlank(s[1..]);
      assert forall k :: 1 <= k < |s| ==> (BlankAt(s, k) <==> BlankAt(s[1..], k - 1));
      1 + i
  }

  function SplitBlank(s: string): (parts: seq<string>)
    ensures parts != []
    decreases |s|
  {
    var i := FirstBlank(s);
    if i == |s| then [s] else [s[..i]] + SplitBlank(s[i + 2..])
  }

  function SplitLines(s: string): (lines: seq<string>)
    ensures lines != []
  {
    var i := Text.IndexOfChar(s, '\n');
    if i == |s| then [s] else [s[..i]] + SplitLines(s[i + 1..])
  }

  // ----- What one part means -----

  /** The first line that starts with "data: ". */
  function FirstData(lines: seq<string>): (line: Option<string>)
    ensures line.Some? ==> FIELD <= line.value
  {
    if lines == [] then None
    else if FIELD <= lines[0] then Some(lines[0])
    else FirstData(lines[1..])
  }

  /** The event of a part: none without a data line or when the JSON is malformed. */
  function PartEvents<T>(parse: string -> Option<T>, part: string): seq<T> {
    match FirstData(SplitLines(part))
    case None => []
    case Some(line) =>
      match parse(line[|FIELD|..])
      case None => []
      case Some(e) => [e]
  }

  function PartsEvents<T>(parse: string -> Option<T>, parts: seq<string>): seq<T> {
    if parts == [] then [] else PartEvents(parse, parts[0]) + PartsEvents(parse, parts[1..])
  }

  /** The events of a complete text. */
  function TextEvents<T>(parse: string -> Option<T>, text: string): seq<T> {
    PartsEvents(parse, SplitBlank(text))
  }

  function Concat(chunks: seq<string>): string {
    if chunks == [] then "" else Concat(Front(chunks)) + Last(chunks)
  }

  // ----- Splitting is incremental -----

  lemma FirstBlankUnique(s: string, i: nat)
    requires BlankAt(s, i) && forall k :: 0 <= k < i ==> !BlankAt(s, k)
    ensures FirstBlank(s) == i
  {
  }

  lemma FirstBlankStays(s: string, t: string)
    requires FirstBlank(s) < |s|
    ensures FirstBlank(s + t) == FirstBlank(s)
  {
    var i := FirstBlank(s);
    forall k | 0 <= k < i ensures !BlankAt(s + t, k) {
      assert !BlankAt(s, k);
    }
    FirstBlankUnique(s + t, i);
  }

  lemma SplitAtFirst(s: string, t: string)
    requires FirstBlank(s) < |s|
    ensures var i := FirstBlank(s); SplitBlank(s + t) == [s[..i]] + SplitBlank(s[i + 2..] + t)
  {
    var i := FirstBlank(s);
    FirstBlankStays(s, t);
    assert (s + t)[..i] == s[..i] && (s + t)[i + 2..] == s[i + 2..] + t;
  }

  lemma GrowLast(first: string, parts: seq<string>, more: seq<string>)
    requires parts != []
    ensures Front([first] + parts) + more == [first] + (Front(parts) + more)
    ensures Last([first] + parts) == Last(parts)
  {
  }

  /** Text appended later only ever affects the last part. */
  lemma {:induction false} SplitIncremental(s: string, t: string)
    ensures SplitBlank(s + t) == Front(SplitBlank(s)) + SplitBlank(Last(SplitBlank(s)) + t)
    decreases |s|
  {
    var i := FirstBlank(s);
    if i == |s| {
      assert SplitBlank(s) == [s] && Front([s]) == [];
    } else {
      var rest := s[i + 2..];
      var parts := SplitBlank(rest);
      assert SplitBlank(s) == [s[..i]] + parts;
      SplitIncremental(rest, t);
      SplitAtFirst(s, t);
      GrowLast(s[..i], parts, SplitBlank(Last(parts) + t));
    }
  }

  lemma {:induction false} PartsAppend<T>(parse: string -> Option<T>, xs: seq<string>, ys: seq<string>)
    ensures PartsEvents(parse, xs + ys) == PartsEvents(parse, xs) + PartsEvents(parse, ys)
  {
    if xs == [] {
      assert xs + ys == ys;
    } else {
      assert (xs + ys)[1..] == xs[1..] + ys;
      PartsAppend(parse, xs[1..], ys);
    }
  }

  // ----- White space carries no event -----

  lemma {:induction false} SpaceHasNoData(lines: seq<string>)
    requires forall l :: l in lines ==> Text.AllSpace(l)
    ensures FirstData(lines) == None
  {
    if lines != [] {
      assert Text.AllSpace(lines[0]);
      assert lines[0] != [] ==> Text.IsSpace(lines[0][0]) && lines[0][0] != 'd';
      SpaceHasNoData(lines[1..]);
    }
  }

  lemma {:induction false} LinesOfSpace(s: string)
    requires Text.AllSpace(s)
    ensures forall l :: l in SplitLines(s) ==> Text.AllSpace(l)
    decreases |s|
  {
    var i := Text.IndexOfChar(s, '\n');
    if i < |s| {
      LinesOfSpace(s[i + 1..]);
    }
  }

  // ----- The parser -----

  method ParsePart<T>(parse: string -> Option<T>, part: string) returns (events: seq<T>)
    ensures events == PartEvents(parse, part)
  {
    events := [];
    var line := FirstData(SplitLines(part));
    if line.Some? {
      var event := parse(line.value[|FIELD|..]);
      if event.Some? {
        events := [event.value];
      }
    }
  }

  lemma PartsStep<T>(parse: string -> Option<T>, parts: seq<string>, j: nat, front: seq<T>)
    requires j < |parts|
    ensures front + PartsEvents(parse, parts[j..])
            == (front + PartEvents(parse, parts[j])) + PartsEvents(parse, parts[j + 1..])
  {
    assert parts[j..][1..] == parts[j + 1..];
  }

  method ParseParts<T>(parse: string -> Option<T>, parts: seq<string>) returns (events: seq<T>)
    ensures events == PartsEvents(parse, parts)
  {
    events := [];
    for j := 0 to |parts|
      invariant events + PartsEvents(parse, parts[j..]) == PartsEvents(parse, parts)
    {
      PartsStep(parse, parts, j, events);
      var more := ParsePart(parse, parts[j]);
      events := events + more;
    }
  }

  /** What is left in the buffer when the stream ends. */
  method Flush<T>(parse: string -> Option<T>, buffer: string) returns (events: seq<T>)
    ensures events == PartEvents(parse, buffer)
  {
    events := [];
    Text.TrimEmptyIff(buffer);
    if |Text.Trim(buffer)| > 0 {
      events := ParsePart(parse, buffer);
    } else {
      LinesOfSpace(buffer);
      SpaceHasNoData(SplitLines(buffer));
    }
  }

  lemma WholeText<T>(parse: string -> Option<T>, text: string)
    ensures TextEvents(parse, text) ==
            PartsEvents(parse, Front(SplitBlank(text))) + PartEvents(parse, Last(SplitBlank(text)))
  {
    var parts := SplitBlank(text);
    PartsAppend(parse, Front(parts), [Last(parts)]);
    assert Front(parts) + [Last(parts)] == parts;
    assert PartsEvents(parse, [Last(parts)][1..]) == [];
  }

  lemma FrontOfAppend(xs: seq<string>, ys: seq<string>)
    requires ys != []
    ensures Front(xs + ys) == xs + Front(ys) && Last(xs + ys) == Last(ys)
  {
  }

  lemma ReadChunk<T>(parse: string -> Option<T>, text: string, chunk: string)
    ensures var parts := SplitBlank(Last(SplitBlank(text)) + chunk);
            && Last(SplitBlank(text + chunk)) == Last(parts)
            && PartsEvents(parse, Front(SplitBlank(text + chunk))) ==
               PartsEvents(parse, Front(SplitBlank(text))) + PartsEvents(parse, Front(parts))
  {
    SplitIncremental(text, chunk);
    var before, parts := Front(SplitBlank(text)), SplitBlank(Last(SplitBlank(text)) + chunk);
    FrontOfAppend(before, parts);
    PartsAppend(parse, before, Front(parts));
  }

  /** The generator, with the events it yields collected: however the text is cut into chunks, they are the
      events of the whole text. */
  method ParseSseStream<T>(parse: string -> Option<T>, chunks: seq<string>) returns (events: seq<T>)
    ensures events == TextEvents(parse, Concat(chunks))
  {
    events := [];
    var buffer := "";
    ghost var text := "";
    assert SplitBlank("") == [""];
    for i := 0 to |chunks|
      invariant text == Concat(chunks[..i])
      invariant events == PartsEvents(parse, Front(SplitBlank(text)))
      invariant buffer == Last(SplitBlank(text))
    {
      ReadChunk(parse, text, chunks[i]);
      assert Front(chunks[..i + 1]) == chunks[..i];
      text := text + chunks[i];
      buffer := buffer + chunks[i];
      var parts := SplitBlank(buffer);
      buffer := Last(parts);
      var more := ParseParts(parse, Front(parts));
      events := events + more;
    }
    assert chunks[..|chunks|] == chunks;
    WholeText(parse, text);
    var last := Flush(parse, buffer);
    events := events + last;
  }

  // ----- The printer -----

  datatype Frame<T> = Message(event: T) | Heartbeat

  function PrintFrame<T>(print_: T -> string, f: Frame<T>): string {
    match f
    case Message(e) => FIELD + print_(e) + BLANK
    case Heartbeat => ": ping" + BLANK
  }

  function Print<T>(print_: T -> string, frames: seq<Frame<T>>): string {
    if frames == [] then "" else PrintFrame(print_, frames[0]) + Print(print_, frames[1..])
  }

  function Messages<T>(frames: seq<Frame<T>>): seq<T> {
    if frames == [] then []
    else (if frames[0].Message? then [frames[0].event] else []) + Messages(frames[1..])
  }

  /** The texts of these values have no raw line feeds and parse back. */
  ghost predicate RoundTrips<T>(parse: string -> Option<T>, print_: T -> string, values: seq<T>) {
    forall e :: e in values ==> parse(print_(e)) == Some(e) && '\n' !in print_(e)
  }

  /** No proper prefix of the text of one of these values parses, as for JSON objects. */
  ghost predicate PrefixFree<T>(parse: string -> Option<T>, print_: T -> string, values: seq<T>) {
    forall e, n: nat :: e in values && n < |print_(e)| ==> parse(print_(e)[..n]) == None
  }

  lemma MessagesCons<T>(frames: seq<Frame<T>>)
    requires frames != []
    ensures Messages(frames) == Messages([frames[0]]) + Messages(frames[1..])
  {
    OneFrame(frames[0]);
  }

  lemma OneFrame<T>(f: Frame<T>)
    ensures Messages([f]) == if f.Message? then [f.event] else []
  {
    assert [f][1..] == [];
  }

  lemma OneLine(s: string)
    requires '\n' !in s
    ensures SplitLines(s) == [s]
  {
  }

  /** The text of a frame up to its blank line. */
  function Head<T>(print_: T -> string, f: Frame<T>): string {
    match f
    case Message(e) => FIELD + print_(e)
    case Heartbeat => ": ping"
  }

  lemma HeadEvents<T>(parse: string -> Option<T>, print_: T -> string, f: Frame<T>)
    requires RoundTrips(parse, print_, Messages([f]))
    ensures '\n' !in Head(print_, f)
    ensures PartEvents(parse, Head(print_, f)) == Messages([f])
  {
    var head := Head(print_, f);
    OneFrame(f);
    OneLine(head);
    if f.Message? {
      assert f.event in Messages([f]);
      assert head[|FIELD|..] == print_(f.event);
    } else {
      assert FirstData([head][1..]) == None;
    }
  }

  lemma SplitAfterHead(head: string, rest: string)
    requires '\n' !in head
    ensures SplitBlank(head + BLANK + rest) == [head] + SplitBlank(rest)
  {
    var s := head + BLANK + rest;
    assert BlankAt(s, |head|);
    forall k | 0 <= k < |head| ensures !BlankAt(s, k) {
      assert s[k] == head[k];
    }
    FirstBlankUnique(s, |head|);
    assert s[..|head|] == head && s[|head| + 2..] == rest;
  }

  /** The parser exactly undoes the printer, with heartbeats anywhere between the messages. */
  lemma {:induction false} PrintThenParse<T>(parse: string -> Option<T>, print_: T -> string, frames: seq<Frame<T>>)
    requires RoundTrips(parse, print_, Messages(frames))
    ensures TextEvents(parse, Print(print_, frames)) == Messages(frames)
  {
    if frames == [] {
      assert SplitBlank("") == [""];
      OneLine("");
      assert FirstData([""]) == None && PartsEvents(parse, [""][1..]) == [];
    } else {
      MessagesCons(frames);
      FrameThen(parse, print_, frames[0], Print(print_, frames[1..]));
      PrintThenParse(parse, print_, frames[1..]);
    }
  }

  // ----- A stream that is cut off -----

  /** What is left of a frame's text when the stream ends inside it carries its event or nothing. */
  lemma CutFrame<T>(parse: string -> Option<T>, print_: T -> string, f: Frame<T>, n: nat)
    requires RoundTrips(parse, print_, Messages([f])) && PrefixFree(parse, print_, Messages([f]))
    requires n < |PrintFrame(print_, f)|
    ensures TextEvents(parse, PrintFrame(print_, f)[..n]) <= Messages([f])
  {
    var head := Head(print_, f);
    var cut := PrintFrame(print_, f)[..n];
    HeadEvents(parse, print_, f);
    if n <= |head| {
      assert cut == head[..n];
      OnePart(parse, cut);
      CutHead(parse, print_, f, n);
    } else {
      assert n == |head| + 1;
      assert cut == head + ['\n'];
      OnePart(parse, cut);
      TrailingLine(head);
      assert PartEvents(parse, cut) == PartEvents(parse, head);
    }
  }

  lemma OnePart<T>(parse: string -> Option<T>, s: string)
    requires forall k :: !BlankAt(s, k)
    ensures TextEvents(parse, s) == PartEvents(parse, s)
  {
    assert SplitBlank(s) == [s];
    assert PartsEvents(parse, [s][1..]) == [];
  }

  lemma TrailingLine(head: string)
    requires '\n' !in head
    ensures FirstData(SplitLines(head + ['\n'])) == FirstData(SplitLines(head))
  {
    OneLine(head);
    OneLine("");
    Text.IndexAfterPrefix(head, '\n', "");
    assert head + ['\n'] == head + ['\n'] + "";
    assert SplitLines(head + ['\n']) == [head] + SplitLines("");
    assert ([head] + [""])[1..] == [""] && [""][1..] == [] && [head][1..] == [];
    assert !(FIELD <= "");
    assert FirstData([""]) == None;
  }

  lemma CutHead<T>(parse: string -> Option<T>, print_: T -> string, f: Frame<T>, n: nat)
    requires RoundTrips(parse, print_, Messages([f])) && PrefixFree(parse, print_, Messages([f]))
    requires n <= |Head(print_, f)|
    ensures PartEvents(parse, Head(print_, f)[..n]) <= Messages([f])
  {
    var head := Head(print_, f);
    var cut := head[..n];
    HeadEvents(parse, print_, f);
    OneFrame(f);
    OneLine(cut);
    assert FirstData([cut][1..]) == None;
    if n == |head| {
      assert cut == head;
    } else if FIELD <= cut {
      assert f.Message? && f.event in Messages([f]);
      assert cut[|FIELD|..] == print_(f.event)[..n - |FIELD|];
    }
  }

  lemma PrintCons<T>(print_: T -> string, frames: seq<Frame<T>>)
    requires frames != []
    ensures Print(print_, frames) == PrintFrame(print_, frames[0]) + Print(print_, frames[1..])
    ensures Messages(frames) == Messages([frames[0]]) + Messages(frames[1..])
  {
    MessagesCons(frames);
  }

  lemma TakeOver(first: string, rest: string, n: nat)
    requires n <= |first| + |rest|
    ensures (first + rest)[..n] == if n < |first| then first[..n] else first + rest[..n - |first|]
  {
  }

  /** A stream cut off anywhere yields a prefix of the messages that were sent: a lost connection loses
      events only from the end and never corrupts one. */
  lemma {:induction false} CutStreamIsPrefix<T>(parse: string -> Option<T>, print_: T -> string,
                                                      frames: seq<Frame<T>>, n: nat)
    requires RoundTrips(parse, print_, Messages(frames)) && PrefixFree(parse, print_, Messages(frames))
    requires n <= |Print(print_, frames)|
    ensures TextEvents(parse, Print(print_, frames)[..n]) <= Messages(frames)
  {
    if frames == [] {
      PrintThenParse(parse, print_, frames);
    } else {
      var f := frames[0];
      var first, rest := PrintFrame(print_, f), Print(print_, frames[1..]);
      PrintCons(print_, frames);
      TakeOver(first, rest, n);
      if n < |first| {
        CutFrame(parse, print_, f, n);
      } else {
        CutStreamIsPrefix(parse, print_, frames[1..], n - |first|);
        FrameThen(parse, print_, f, rest[..n - |first|]);
      }
    }
  }

  lemma FrameThen<T>(parse: string -> Option<T>, print_: T -> string, f: Frame<T>, rest: string)
    requires RoundTrips(parse, print_, Messages([f]))
    ensures TextEvents(parse, PrintFrame(print_, f) + rest) == Messages([f]) + TextEvents(parse, rest)
  {
    var head := Head(print_, f);
    HeadEvents(parse, print_, f);
    SplitAfterHead(head, rest);
    assert PrintFrame(print_, f) + rest == head + BLANK + rest;
    assert ([head] + SplitBlank(rest))[1..] == SplitBlank(rest);
  }
}
