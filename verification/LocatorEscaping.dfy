/** The two nested quotings around an attribute value in a generated frame locator
    (apps/runtime-mcp/src/codegen/locator-derive.ts), and the two evaluators that undo them:
    string literals of ECMA-262 (section 12.9.4) and XPath 1.0 (sections 3.7 and 4.2). */
module LocatorEscaping {
  import opened Option
  import Text

  // ----- The printers -----

  /** String.replace with a global one-character pattern. */
  function ReplaceChar(s: string, c: char, r: string): string {
    if s == [] then []
    else (if s[0] == c then r else [s[0]]) + ReplaceChar(s[1..], c, r)
  }

  /** A static TypeScript literal: backslashes doubled first, then single quotes escaped. */
  function TsQuote(value: string): string {
    "'" + ReplaceChar(ReplaceChar(value, '\\', "\\\\"), '\'', "\\'") + "'"
  }

  function SplitOn(s: string, c: char): (parts: seq<string>)
    ensures parts != []
    ensures forall p :: p in parts ==> c !in p
  {
    var i := Text.IndexOfChar(s, c);
    if i == |s| then [s] else [s[..i]] + SplitOn(s[i + 1..], c)
  }

  function DoubleQuoted(s: string): string {
    "\"" + s + "\""
  }

  /** A segment and the double quote that follows it. */
  function ConcatArg(seg: string): string {
    DoubleQuoted(seg) + ", '\"'"
  }

  function ConcatArgs(segs: seq<string>): (args: seq<string>)
    requires segs != []
    ensures args != []
  {
    if |segs| == 1 then [DoubleQuoted(segs[0])] else [ConcatArg(segs[0])] + ConcatArgs(segs[1..])
  }

  function XPathLiteral(s: string): string {
    if '"' !in s then DoubleQuoted(s)
    else if '\'' !in s then "'" + s + "'"
    else "concat(" + Text.Join(ConcatArgs(SplitOn(s, '"')), ", ") + ")"
  }

  // ----- The TypeScript evaluator -----

  const LF := '\n'
  const CR := '\r'

  predicate OneLine(s: string) {
    LF !in s && CR !in s
  }

  /** The character a single-character escape stands for; None for the escapes that take more input
      (numeric, hexadecimal, Unicode, line continuation), which the printer never emits. */
  function EscapedChar(c: char): Option<char> {
    match c
    case 'n' => Some('\n')
    case 't' => Some('\t')
    case 'r' => Some('\r')
    case 'b' => Some('\U{0008}')
    case 'f' => Some('\U{000C}')
    case 'v' => Some('\U{000B}')
    case _ =>
      if '0' <= c <= '9' || c in {'x', 'u', LF, CR, '\U{2028}', '\U{2029}'} then None else Some(c)
  }

  function EvalBody(s: string): Option<string> {
    if s == [] || s[0] == LF || s[0] == CR then None
    else if s[0] == '\'' then (if |s| == 1 then Some("") else None)
    else if s[0] == '\\' then
      if |s| == 1 || EscapedChar(s[1]).None? then None
      else Prepend(EscapedChar(s[1]).value, EvalBody(s[2..]))
    else Prepend(s[0], EvalBody(s[1..]))
  }

  function Prepend(c: char, o: Option<string>): Option<string> {
    if o.None? then None else Some([c] + o.value)
  }

  /** The value of a single-quoted literal, None when the source is not one. */
  function EvalTsLiteral(src: string): Option<string> {
    if src != [] && src[0] == '\'' then EvalBody(src[1..]) else None
  }

  // ----- The XPath evaluator -----

  /** A value together with the input that is left after it. */
  datatype Parsed = Fail | Done(value: string, rest: string)

  function ParseLiteral(s: string): Parsed {
    if s == [] || (s[0] != '"' && s[0] != '\'') then Fail
    else
      var i := Text.IndexOfChar(s[1..], s[0]);
      if i == |s[1..]| then Fail else Done(s[1..1 + i], s[i + 2..])
  }

  /** The arguments of concat, from the first one up to the closing parenthesis. */
  function ParseConcatArgs(s: string, count: nat): Parsed
    decreases |s|
  {
    match ParseLiteral(s)
    case Fail => Fail
    case Done(v, rest) =>
      if rest == [] then Fail
      else if rest[0] == ')' then (if count == 0 then Fail else Done(v, rest[1..]))
      else if rest[0] == ',' then
        var next := Text.TrimStart(rest[1..]);
        if |next| < |s| then
          match ParseConcatArgs(next, count + 1)
          case Fail => Fail
          case Done(w, after) => Done(v + w, after)
        else Fail
      else Fail
  }

  function ParseXPathString(s: string): Parsed {
    if "concat(" <= s then ParseConcatArgs(s[7..], 0) else ParseLiteral(s)
  }

  const HEAD := "xpath=//*[@"

  /** The attribute test of a hop, up to the end of its XPath. */
  function EvalTest(test: string): Option<(string, string)> {
    var eq := Text.IndexOfChar(test, '=');
    if eq == |test| then None
    else
      match ParseXPathString(test[eq + 1..])
      case Fail => None
      case Done(value, rest) => if rest == "]" then Some((test[..eq], value)) else None
  }

  /** The source of one rendered frame hop, read back as attribute name and value. */
  function EvalHop(src: string): Option<(string, string)> {
    match EvalTsLiteral(src)
    case None => None
    case Some(xp) => if HEAD <= xp then EvalTest(xp[|HEAD|..]) else None
  }

  // ----- Quoting for TypeScript is undone exactly for one-line values -----

  function Escape(s: string): string {
    ReplaceChar(ReplaceChar(s, '\\', "\\\\"), '\'', "\\'")
  }

  lemma {:induction false} ReplaceAppend(s: string, t: string, c: char, r: string)
    ensures ReplaceChar(s + t, c, r) == ReplaceChar(s, c, r) + ReplaceChar(t, c, r)
    decreases |s|
  {
    if s == [] {
      assert s + t == t;
    } else {
      assert (s + t)[1..] == s[1..] + t;
      ReplaceAppend(s[1..], t, c, r);
    }
  }

  /** The two passes amount to one escape per character. */
  lemma EscapeStep(s: string)
    requires s != []
    ensures Escape(s) == (if s[0] == '\\' then "\\\\" else if s[0] == '\'' then "\\'" else [s[0]]) + Escape(s[1..])
  {
    var first := if s[0] == '\\' then "\\\\" else [s[0]];
    var tail := ReplaceChar(s[1..], '\\', "\\\\");
    ReplaceAppend(first, tail, '\'', "\\'");
    if s[0] == '\\' {
      assert "\\\\"[1..] == "\\" && "\\"[1..] == [];
      assert ReplaceChar("\\\\", '\'', "\\'") == "\\\\";
    } else {
      assert [s[0]][1..] == [];
      assert ReplaceChar([s[0]], '\'', "\\'") == (if s[0] == '\'' then "\\'" else [s[0]]);
    }
  }

  lemma EvalQuotedChar(c: char, tail: string)
    requires c == '\\' || c == '\''
    ensures EvalBody(['\\', c] + tail) == Prepend(c, EvalBody(tail))
  {
    assert (['\\', c] + tail)[2..] == tail;
  }

  lemma EvalPlainChar(c: char, tail: string)
    requires c != '\\' && c != '\''
    ensures EvalBody([c] + tail) == if c == LF || c == CR then None else Prepend(c, EvalBody(tail))
  {
    assert ([c] + tail)[1..] == tail;
  }

  lemma OneLineCons(s: string)
    requires s != []
    ensures OneLine(s) <==> s[0] != LF && s[0] != CR && OneLine(s[1..])
  {
    assert s == [s[0]] + s[1..];
  }

  lemma {:induction false} EvalEscaped(s: string)
    ensures EvalBody(Escape(s) + "'") == if OneLine(s) then Some(s) else None
    decreases |s|
  {
    if s != [] {
      EscapeStep(s);
      EvalEscaped(s[1..]);
      OneLineCons(s);
      var c, tail := s[0], Escape(s[1..]) + "'";
      assert [c] + s[1..] == s;
      if c == '\\' || c == '\'' {
        assert Escape(s) + "'" == ['\\', c] + tail;
        EvalQuotedChar(c, tail);
      } else {
        assert Escape(s) + "'" == [c] + tail;
        EvalPlainChar(c, tail);
      }
    }
  }

  /** A static literal evaluates back to its value if and only if the value has no line break. */
  lemma TsQuoteRoundTripIff(s: string)
    ensures EvalTsLiteral(TsQuote(s)) == Some(s) <==> OneLine(s)
    ensures !OneLine(s) ==> EvalTsLiteral(TsQuote(s)) == None
  {
    EvalEscaped(s);
    assert TsQuote(s)[1..] == Escape(s) + "'";
  }

  // ----- Literals that are not escaped at all -----

  /** Titles, suites, paths, keys and file names are put between single quotes as they are. */
  function RawQuote(s: string): string {
    "'" + s + "'"
  }

  predicate Plain(s: string) {
    OneLine(s) && '\'' !in s && '\\' !in s
  }

  /** A quote or a line break ends the literal, a backslash makes one character of two or takes the end. */
  lemma {:induction false} EvalRaw(s: string)
    ensures Plain(s) ==> EvalBody(s + "'") == Some(s)
    ensures !Plain(s) && EvalBody(s + "'").Some? ==> |EvalBody(s + "'").value| < |s|
    decreases |s|
  {
    if s == [] {
      assert s + "'" == "'";
    } else if s[0] == '\\' {
      EvalRawBackslash(s);
      if |s| > 1 {
        EvalRaw(s[2..]);
      }
    } else if s[0] != '\'' {
      var c, rest := s[0], s[1..];
      EvalRaw(rest);
      assert s + "'" == [c] + (rest + "'");
      EvalPlainChar(c, rest + "'");
      assert s == [c] + rest;
    }
  }

  lemma EvalRawBackslash(s: string)
    requires s != [] && s[0] == '\\'
    ensures |s| == 1 ==> EvalBody(s + "'") == None
    ensures |s| > 1 && EvalBody(s + "'").Some? ==>
              EvalBody(s[2..] + "'").Some? && |EvalBody(s + "'").value| == 1 + |EvalBody(s[2..] + "'").value|
  {
    var t := s + "'";
    if |s| == 1 {
      assert t[2..] == [] && EvalBody(t[2..]) == None;
    } else {
      assert t[2..] == s[2..] + "'";
    }
  }

  /** Such a literal evaluates to its text if and only if that has no quote, no backslash and no line break. */
  lemma RawLiteralIff(s: string)
    ensures EvalTsLiteral(RawQuote(s)) == Some(s) <==> Plain(s)
  {
    EvalRaw(s);
    assert RawQuote(s)[1..] == s + "'";
  }

  // ----- Quoting for XPath is undone for every value -----

  lemma LiteralRoundTrip(s: string, quote: char, rest: string)
    requires quote == '"' || quote == '\''
    requires quote !in s
    ensures ParseLiteral([quote] + s + [quote] + rest) == Done(s, rest)
  {
    var src := [quote] + s + [quote] + rest;
    assert src[1..] == s + [quote] + rest;
    Text.IndexAfterPrefix(s, quote, rest);
    assert src[1..1 + |s|] == s && src[|s| + 2..] == rest;
  }

  function Unsplit(segs: seq<string>): string
    requires segs != []
  {
    if |segs| == 1 then segs[0] else segs[0] + "\"" + Unsplit(segs[1..])
  }

  lemma UnsplitCons(first: string, rest: seq<string>)
    requires rest != []
    ensures Unsplit([first] + rest) == first + "\"" + Unsplit(rest)
  {
    assert ([first] + rest)[1..] == rest;
  }

  lemma {:induction false} SplitUnsplit(s: string)
    ensures Unsplit(SplitOn(s, '"')) == s
    decreases |s|
  {
    var i := Text.IndexOfChar(s, '"');
    if i < |s| {
      var first, after := s[..i], s[i + 1..];
      SplitUnsplit(after);
      UnsplitCons(first, SplitOn(after, '"'));
      CutAt(s, i);
    }
  }

  lemma CutAt(s: string, i: nat)
    requires i < |s| && s[i] == '"'
    ensures s == s[..i] + "\"" + s[i + 1..]
  {
  }

  lemma TrimOneBlank(s: string)
    requires s != [] && !Text.IsSpace(s[0])
    ensures Text.TrimStart(" " + s) == s
  {
    assert (" " + s)[1..] == s;
  }

  lemma ParseLastArg(v: string, rest: string, count: nat)
    requires '"' !in v && count > 0
    ensures ParseConcatArgs(DoubleQuoted(v) + (")" + rest), count) == Done(v, rest)
  {
    LiteralRoundTrip(v, '"', ")" + rest);
    assert DoubleQuoted(v) + (")" + rest) == ['"'] + v + ['"'] + (")" + rest);
    assert (")" + rest)[1..] == rest;
  }

  lemma ParseOneArg(v: string, quote: char, next: string, count: nat)
    requires quote == '"' || quote == '\''
    requires quote !in v
    requires next != [] && !Text.IsSpace(next[0])
    requires ParseConcatArgs(next, count + 1).Done?
    ensures var tail := ParseConcatArgs(next, count + 1);
            ParseConcatArgs([quote] + v + [quote] + (", " + next), count) == Done(v + tail.value, tail.rest)
  {
    var rest := ", " + next;
    LiteralRoundTrip(v, quote, rest);
    assert rest[1..] == " " + next;
    TrimOneBlank(next);
  }

  function Args(segs: seq<string>, rest: string): string
    requires segs != []
  {
    Text.Join(ConcatArgs(segs), ", ") + (")" + rest)
  }

  lemma ArgsStep(segs: seq<string>, rest: string)
    requires |segs| > 1
    ensures Args(segs, rest) == ['"'] + segs[0] + ['"'] + (", " + QuoteArg(Args(segs[1..], rest)))
  {
    var others := ConcatArgs(segs[1..]);
    JoinHead(ConcatArg(segs[0]), others);
    Regroup(segs[0], Text.Join(others, ", "), ")" + rest);
  }

  lemma JoinHead(arg: string, others: seq<string>)
    requires others != []
    ensures Text.Join([arg] + others, ", ") == arg + ", " + Text.Join(others, ", ")
  {
    assert ([arg] + others)[1..] == others;
  }

  lemma Regroup(seg: string, joined: string, end: string)
    ensures ConcatArg(seg) + ", " + joined + end == ['"'] + seg + ['"'] + (", " + QuoteArg(joined + end))
  {
  }

  function QuoteArg(next: string): string {
    ['\''] + ['"'] + ['\''] + (", " + next)
  }

  /** A segment and the quoted double quote after it. */
  lemma ParseTwoArgs(seg: string, next: string, count: nat)
    requires '"' !in seg
    requires next != [] && !Text.IsSpace(next[0])
    requires ParseConcatArgs(next, count + 2).Done?
    ensures var tail := ParseConcatArgs(next, count + 2);
            ParseConcatArgs(['"'] + seg + ['"'] + (", " + QuoteArg(next)), count)
            == Done(seg + (['"'] + tail.value), tail.rest)
  {
    ParseOneArg(['"'], '\'', next, count + 1);
    ParseOneArg(seg, '"', QuoteArg(next), count);
  }

  lemma {:induction false} ConcatRoundTrip(segs: seq<string>, count: nat, rest: string)
    requires segs != [] && forall p :: p in segs ==> '"' !in p
    requires count > 0 || |segs| > 1
    ensures Args(segs, rest)[0] == '"' && ParseConcatArgs(Args(segs, rest), count) == Done(Unsplit(segs), rest)
    decreases |segs|
  {
    if |segs| == 1 {
      assert Args(segs, rest) == DoubleQuoted(segs[0]) + (")" + rest);
      ParseLastArg(segs[0], rest, count);
    } else {
      var others := segs[1..];
      ConcatRoundTrip(others, count + 2, rest);
      ParseTwoArgs(segs[0], Args(others, rest), count);
      ArgsStep(segs, rest);
      assert segs[0] + (['"'] + Unsplit(others)) == Unsplit(segs);
    }
  }

  lemma PlainLiteral(s: string, quote: char, rest: string)
    requires quote == '"' || quote == '\''
    requires quote !in s
    ensures ParseXPathString([quote] + s + [quote] + rest) == Done(s, rest)
  {
    LiteralRoundTrip(s, quote, rest);
    var src := [quote] + s + [quote] + rest;
    assert src[0] == quote && "concat("[0] == 'c';
  }

  lemma ConcatCall(args: string)
    ensures ParseXPathString("concat(" + args) == ParseConcatArgs(args, 0)
  {
    assert ("concat(" + args)[7..] == args;
  }

  lemma SplitInTwo(s: string)
    requires '"' in s
    ensures |SplitOn(s, '"')| > 1
  {
  }

  lemma WrapCall(args: string, rest: string)
    ensures "concat(" + args + ")" + rest == "concat(" + (args + (")" + rest))
  {
  }

  lemma MixedQuotes(s: string, rest: string)
    requires '"' in s && '\'' in s
    ensures ParseXPathString(XPathLiteral(s) + rest) == Done(s, rest)
  {
    var segs := SplitOn(s, '"');
    SplitInTwo(s);
    SplitUnsplit(s);
    var args := Text.Join(ConcatArgs(segs), ", ");
    WrapCall(args, rest);
    var src := args + (")" + rest);
    assert ParseConcatArgs(src, 0) == Done(s, rest) by {
      ConcatRoundTrip(segs, 0, rest);
      assert src == Args(segs, rest);
    }
    ConcatCall(src);
    assert XPathLiteral(s) + rest == "concat(" + src;
  }

  /** Every value is what its XPath literal evaluates to, in any context that follows it. */
  lemma XPathRoundTrip(s: string, rest: string)
    ensures ParseXPathString(XPathLiteral(s) + rest) == Done(s, rest)
  {
    if '"' !in s {
      PlainLiteral(s, '"', rest);
    } else if '\'' !in s {
      PlainLiteral(s, '\'', rest);
    } else {
      MixedQuotes(s, rest);
    }
  }

  // ----- Both layers -----

  /** The XPath of a frame hop found by its test-id attribute. */
  function HopXPath(attr: string, value: string): string {
    "//*[@" + attr + "=" + XPathLiteral(value) + "]"
  }

  lemma OneLineConcat(a: string, b: string)
    ensures OneLine(a + b) <==> OneLine(a) && OneLine(b)
  {
  }

  lemma Wrapped(open: string, s: string, close: string)
    requires OneLine(open) && OneLine(close)
    ensures OneLine(open + s + close) <==> OneLine(s)
  {
    OneLineConcat(open + s, close);
    OneLineConcat(open, s);
  }

  lemma ConcatArgOneLine(seg: string)
    ensures OneLine(ConcatArg(seg)) <==> OneLine(seg)
  {
    Wrapped("\"", seg, "\"");
    OneLineConcat(DoubleQuoted(seg), ", '\"'");
  }

  lemma JoinCons(arg: string, rest: seq<string>)
    requires rest != []
    ensures OneLine(Text.Join([arg] + rest, ", ")) <==> OneLine(arg) && OneLine(Text.Join(rest, ", "))
  {
    assert ([arg] + rest)[1..] == rest;
    OneLineConcat(arg + ", ", Text.Join(rest, ", "));
    OneLineConcat(arg, ", ");
  }

  lemma UnsplitOneLine(first: string, rest: seq<string>)
    requires rest != []
    ensures OneLine(Unsplit([first] + rest)) <==> OneLine(first) && OneLine(Unsplit(rest))
  {
    UnsplitCons(first, rest);
    OneLineConcat(first + "\"", Unsplit(rest));
    OneLineConcat(first, "\"");
  }

  lemma {:induction false} JoinOneLine(segs: seq<string>)
    requires segs != []
    ensures OneLine(Text.Join(ConcatArgs(segs), ", ")) <==> OneLine(Unsplit(segs))
    decreases |segs|
  {
    if |segs| == 1 {
      Wrapped("\"", segs[0], "\"");
    } else {
      var first, rest := segs[0], segs[1..];
      JoinOneLine(rest);
      ConcatArgOneLine(first);
      JoinCons(ConcatArg(first), ConcatArgs(rest));
      UnsplitOneLine(first, rest);
      assert segs == [first] + rest;
    }
  }

  lemma XPathLiteralOneLine(s: string)
    ensures OneLine(XPathLiteral(s)) <==> OneLine(s)
  {
    if '"' !in s {
      Wrapped("\"", s, "\"");
    } else if '\'' !in s {
      Wrapped("'", s, "'");
    } else {
      var args := Text.Join(ConcatArgs(SplitOn(s, '"')), ", ");
      Wrapped("concat(", args, ")");
      JoinOneLine(SplitOn(s, '"'));
      SplitUnsplit(s);
    }
  }

  function HopTest(attr: string, value: string): string {
    attr + ['='] + (XPathLiteral(value) + "]")
  }

  lemma EvalHopTest(attr: string, value: string)
    requires '=' !in attr
    ensures EvalTest(HopTest(attr, value)) == Some((attr, value))
  {
    var expr := XPathLiteral(value) + "]";
    var test := HopTest(attr, value);
    Text.IndexAfterPrefix(attr, '=', expr);
    assert test[..|attr|] == attr && test[|attr| + 1..] == expr;
    XPathRoundTrip(value, "]");
  }

  lemma HopShape(attr: string, value: string)
    ensures "xpath=" + HopXPath(attr, value) == HEAD + HopTest(attr, value)
    ensures OneLine(attr) ==> (OneLine(HEAD + HopTest(attr, value)) <==> OneLine(value))
  {
    XPathLiteralOneLine(value);
    OneLineConcat(XPathLiteral(value), "]");
    OneLineConcat(attr, ['=']);
    OneLineConcat(attr + ['='], XPathLiteral(value) + "]");
    OneLineConcat(HEAD, HopTest(attr, value));
  }

  lemma EvalHopOf(src: string, test: string)
    requires EvalTsLiteral(src) == Some(HEAD + test)
    ensures EvalHop(src) == EvalTest(test)
  {
    AfterHead(test);
  }

  lemma AfterHead(test: string)
    ensures HEAD <= HEAD + test && (HEAD + test)[|HEAD|..] == test
  {
  }

  /** End to end: evaluating the emitted literal as TypeScript and then as XPath gives back attribute and
      value, whatever quotes and backslashes the value has, if and only if it has no line break. */
  lemma HopRoundTripIff(attr: string, value: string)
    requires OneLine(attr) && '=' !in attr
    ensures EvalHop(TsQuote("xpath=" + HopXPath(attr, value))) == Some((attr, value)) <==> OneLine(value)
  {
    HopShape(attr, value);
    var src := TsQuote(HEAD + HopTest(attr, value));
    TsQuoteRoundTripIff(HEAD + HopTest(attr, value));
    if OneLine(value) {
      EvalHopOf(src, HopTest(attr, value));
      EvalHopTest(attr, value);
    }
  }
}
