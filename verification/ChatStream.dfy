/**
 Server-sent chat events: the frames the conversation route prints, and the client that splits the
 text arriving in arbitrary chunks on blank lines and dispatches the frames.
 */
module ChatStream {
  import opened Common

  // ---------------------------------------------------------- splitting frames

  const BLANK := "\n\n"

  predicate SeparatorAt(s: string, i: int) {
    0 <= i && i + 2 <= |s| && s[i] == '\n' && s[i + 1] == '\n'
  }

  /** The first blank line, or the length of the text. */
  function FirstSeparator(s: string, from: nat): (k: nat)
    requires from <= |s|
    ensures from <= k <= |s|
    ensures k < |s| ==> SeparatorAt(s, k)
    ensures forall i :: from <= i < k ==> !SeparatorAt(s, i)
    decreases |s| - from
  {
    if from + 2 > |s| then |s|
    else if SeparatorAt(s, from) then from
    else FirstSeparator(s, from + 1)
  }

  /** String.split on blank lines: the last element is what follows the last of them. */
  function Split(s: string): (frames: seq<string>)
    ensures |frames| > 0
    decreases |s|
  {
    var k := FirstSeparator(s, 0);
    if k == |s| then [s] else [s[..k]] + Split(s[k + 2..])
  }

  function Last<T>(s: seq<T>): T
    requires |s| > 0
  {
    s[|s| - 1]
  }

  function Front<T>(s: seq<T>): seq<T>
    requires |s| > 0
  {
    s[..|s| - 1]
  }

  lemma FirstSeparatorIs(s: string, k: nat)
    requires k <= |s| && (k < |s| ==> SeparatorAt(s, k)) && forall i :: 0 <= i < k ==> !SeparatorAt(s, i)
    ensures FirstSeparator(s, 0) == k
  {
  }

  /** The text before the first separator is the first frame. */
  lemma {:induction false} SplitAt(s: string, k: nat)
    requires k < |s| && SeparatorAt(s, k) && forall i :: 0 <= i < k ==> !SeparatorAt(s, i)
    ensures k + 2 <= |s| && Split(s) == [s[..k]] + Split(s[k + 2..])
  {
    FirstSeparatorIs(s, k);
  }

  lemma FrameFront(frame: string, rest: seq<string>, more: seq<string>)
    requires |rest| > 0
    ensures Last([frame] + rest) == Last(rest)
    ensures [frame] + (Front(rest) + more) == Front([frame] + rest) + more
  {
  }

  lemma NoSeparator(s: string)
    requires forall i :: 0 <= i < |s| ==> !SeparatorAt(s, i)
    ensures Split(s) == [s]
  {
  }

  /** The split of what follows the first frame carries over to the whole text. */
  lemma {:induction false} SplitStep(s: string, more: string, k: nat, rest: string)
    requires k < |s| && SeparatorAt(s, k) && (forall i :: 0 <= i < k ==> !SeparatorAt(s, i)) && rest == s[k + 2..]
    requires Split(rest + more) == Front(Split(rest)) + Split(Last(Split(rest)) + more)
    ensures Split(s + more) == Front(Split(s)) + Split(Last(Split(s)) + more)
  {
    var all := s + more;
    forall i | 0 <= i < k ensures !SeparatorAt(all, i) {
      assert !SeparatorAt(s, i);
    }
    SplitAt(s, k);
    SplitAt(all, k);
    assert all[..k] == s[..k] && all[k + 2..] == rest + more;
    FrameFront(s[..k], Split(rest), Split(Last(Split(rest)) + more));
  }

  /** Splitting the text received so far and then the rest finds the same frames as splitting at once. */
  lemma {:induction false} SplitAppend(s: string, more: string)
    ensures Split(s + more) == Front(Split(s)) + Split(Last(Split(s)) + more)
    decreases |s|
  {
    var k := FirstSeparator(s, 0);
    if k < |s| {
      SplitAppend(s[k + 2..], more);
      SplitStep(s, more, k, s[k + 2..]);
    } else {
      NoSeparator(s);
      assert Front([s]) == [] && [] + Split(s + more) == Split(s + more);
    }
  }

  // ------------------------------------------------------------- reading a frame

  /** The ECMAScript line terminators, at which `^` and `$` match in multiline mode. */
  predicate LineTerminator(c: char) {
    c == '\n' || c == '\r' || c == '\U{2028}' || c == '\U{2029}'
  }

  function LineEnd(s: string): (e: nat)
    ensures e <= |s|
    ensures e < |s| ==> LineTerminator(s[e])
    ensures forall i :: 0 <= i < e ==> !LineTerminator(s[i])
  {
    if s == [] || LineTerminator(s[0]) then 0 else 1 + LineEnd(s[1..])
  }

  /** The first line made of `key` and at least one more character: what follows the key. */
  function Field(frame: string, key: string): Option<string>
    decreases |frame|
  {
    var e := LineEnd(frame);
    if key <= frame[..e] && |key| < e then Some(frame[|key|..e])
    else if e < |frame| then Field(frame[e + 1..], key)
    else None
  }

  type Answer = string

  /** JSON.parse followed by the schema of each payload; None is a thrown parse error. */
  datatype Codec = Codec(
    token: string -> Option<string>,
    terminal: string -> Option<Answer>,
    error: string -> Option<string>)

  datatype Ending =
    | Open                        // no frame has ended the stream
    | Terminal(answer: Answer)    // onTerminal
    | Cancelled                   // onCancelled
    | ServerError(detail: string) // ChatStreamError carrying the server's detail
    | BadPayload                  // a payload that does not parse
    | NoTerminal                  // ChatStreamError: the stream ended without a terminal event

  /** What the handlers have seen. */
  datatype Log = Log(tokens: seq<string>, ending: Ending)

  /** dispatchFrame. */
  function Dispatch(frame: string, codec: Codec, log: Log): Log {
    var event, data := Field(frame, "event: "), Field(frame, "data: ");
    if event.None? || data.None? then log
    else if event.value == "token" then
      match codec.token(data.value)
      case Some(token) => log.(tokens := log.tokens + [token])
      case None => log.(ending := BadPayload)
    else if event.value == "terminal" then
      match codec.terminal(data.value)
      case Some(answer) => log.(ending := Terminal(answer))
      case None => log.(ending := BadPayload)
    else if event.value == "cancelled" then log.(ending := Cancelled)
    else if event.value == "error" then
      match codec.error(data.value)
      case Some(detail) => log.(ending := ServerError(detail))
      case None => log.(ending := BadPayload)
    else log
  }

  /** Dispatch in order, up to and including the frame that ends the stream. */
  function DispatchAll(frames: seq<string>, codec: Codec, log: Log): Log {
    if frames == [] || !log.ending.Open? then log
    else DispatchAll(frames[1..], codec, Dispatch(frames[0], codec, log))
  }

  predicate JsSpace(c: char) {
    || '\t' <= c <= '\r' || c == ' ' || c == '\U{a0}' || c == '\U{1680}' || '\U{2000}' <= c <= '\U{200a}'
    || c == '\U{2028}' || c == '\U{2029}' || c == '\U{202f}' || c == '\U{205f}' || c == '\U{3000}' || c == '\U{feff}'
  }

  /** trim() leaves nothing. */
  predicate Blank(s: string) { forall i :: 0 <= i < |s| ==> JsSpace(s[i]) }

  /** The end of the stream: an unterminated last frame still counts. */
  function Close(rest: string, codec: Codec, log: Log): Log {
    if !log.ending.Open? then log
    else
      var last := if Blank(rest) then log else Dispatch(rest, codec, log);
      if last.ending.Open? then last.(ending := NoTerminal) else last
  }

  const NOTHING := Log([], Open)

  /** The reference client: split the whole text at once. */
  function Whole(text: string, codec: Codec): Log {
    var frames := Split(text);
    Close(Last(frames), codec, DispatchAll(Front(frames), codec, NOTHING))
  }

  lemma {:induction false} DispatchAppend(a: seq<string>, b: seq<string>, codec: Codec, log: Log)
    ensures DispatchAll(a + b, codec, log) == DispatchAll(b, codec, DispatchAll(a, codec, log))
    decreases |a|
  {
    if a == [] {
      assert a + b == b;
    } else if log.ending.Open? {
      assert (a + b)[1..] == a[1..] + b;
      DispatchAppend(a[1..], b, codec, Dispatch(a[0], codec, log));
    }
  }

  /** The first `k` chunks are split into the frames dispatched and the text still buffered. */
  ghost predicate Buffered(chunks: seq<string>, k: nat, dispatched: seq<string>, buffer: string) {
    k <= |chunks| && Split(Concat(chunks[..k])) == dispatched + [buffer]
  }

  lemma BufferNext(chunks: seq<string>, k: nat, dispatched: seq<string>, buffer: string)
    requires k < |chunks| && Buffered(chunks, k, dispatched, buffer)
    ensures var frames := Split(buffer + chunks[k]);
            Buffered(chunks, k + 1, dispatched + Front(frames), Last(frames))
  {
    var frames := Split(buffer + chunks[k]);
    assert chunks[..k + 1] == chunks[..k] + [chunks[k]];
    ConcatPush(chunks[..k], chunks[k]);
    SplitAppend(Concat(chunks[..k]), chunks[k]);
    FrontLast(dispatched, [buffer]);
    Regroup(dispatched, frames);
  }

  lemma Regroup(dispatched: seq<string>, frames: seq<string>)
    requires |frames| > 0
    ensures dispatched + frames == dispatched + Front(frames) + [Last(frames)]
    ensures dispatched + Front([""]) == dispatched
  {
  }

  lemma FrontLast(a: seq<string>, b: seq<string>)
    requires |b| > 0
    ensures Front(a + b) == a + Front(b) && Last(a + b) == Last(b)
  {
  }

  /** Frames after the one that ended the stream are never dispatched. */
  lemma EndedEarly(chunks: seq<string>, k: nat, dispatched: seq<string>, buffer: string, codec: Codec)
    requires Buffered(chunks, k, dispatched, buffer)
    requires !DispatchAll(dispatched, codec, NOTHING).ending.Open?
    ensures Whole(Concat(chunks), codec) == DispatchAll(dispatched, codec, NOTHING)
  {
    var rest := Concat(chunks[k..]);
    assert chunks == chunks[..k] + chunks[k..];
    ConcatAppend(chunks[..k], chunks[k..]);
    SplitAppend(Concat(chunks[..k]), rest);
    assert Front(dispatched + [buffer]) == dispatched;
    var tail := Split(buffer + rest);
    FrontLast(dispatched, tail);
    DispatchAppend(dispatched, Front(tail), codec, NOTHING);
  }

  lemma AllBuffered(chunks: seq<string>, dispatched: seq<string>, buffer: string, codec: Codec)
    requires Buffered(chunks, |chunks|, dispatched, buffer)
    ensures Whole(Concat(chunks), codec) == Close(buffer, codec, DispatchAll(dispatched, codec, NOTHING))
  {
    assert chunks[..|chunks|] == chunks;
    assert Front(dispatched + [buffer]) == dispatched;
  }

  /** The loop over the frames of one read; it stops at the frame that ends the stream. */
  method DispatchFrames(frames: seq<string>, codec: Codec, start: Log) returns (log: Log)
    requires start.ending.Open?
    ensures log == DispatchAll(frames, codec, start)
  {
    log := start;
    for i := 0 to |frames|
      invariant log.ending.Open?
      invariant DispatchAll(frames, codec, start) == DispatchAll(frames[i..], codec, log)
    {
      assert frames[i..][1..] == frames[i + 1..];
      log := Dispatch(frames[i], codec, log);
      if !log.ending.Open? { return; }
    }
  }

  /** streamChat's read loop: the handlers see what splitting the whole text would give them. */
  method StreamChat(chunks: seq<string>, codec: Codec) returns (log: Log)
    ensures log == Whole(Concat(chunks), codec)
  {
    log := NOTHING;
    var buffer: string := "";
    ghost var dispatched: seq<string> := [];
    assert Split("") == [""];
    for k := 0 to |chunks|
      invariant log.ending.Open? && log == DispatchAll(dispatched, codec, NOTHING)
      invariant Buffered(chunks, k, dispatched, buffer)
    {
      BufferNext(chunks, k, dispatched, buffer);
      var frames := Split(buffer + chunks[k]);
      buffer := Last(frames);
      log := DispatchFrames(Front(frames), codec, log);
      DispatchAppend(dispatched, Front(frames), codec, NOTHING);
      dispatched := dispatched + Front(frames);
      if !log.ending.Open? {
        EndedEarly(chunks, k + 1, dispatched, buffer, codec);
        return;
      }
    }
    AllBuffered(chunks, dispatched, buffer, codec);
    log := Close(buffer, codec, log);
  }

  // ------------------------------------------------------------------ the server

  /** How the answer generator ends: it raises, or returns the answer or None when cancelled. */
  datatype Finish = Raised(detail: string) | Returned(answer: Option<Answer>)

  /** json.dumps of each payload. */
  datatype Printer = Printer(
    token: string -> string,
    terminal: Answer -> string,
    error: string -> string)

  function Frame(event: string, data: string): string {
    "event: " + event + "\ndata: " + data + BLANK
  }

  function LastFrame(finish: Finish, printer: Printer): string {
    match finish
    case Raised(detail) => Frame("error", printer.error(detail))
    case Returned(None) => Frame("cancelled", "{}")
    case Returned(Some(answer)) => Frame("terminal", printer.terminal(answer))
  }

  function TokenFrame(token: string, printer: Printer): string {
    Frame("token", printer.token(token))
  }

  function Printed(tokens: seq<string>, finish: Finish, printer: Printer): string {
    if tokens == [] then LastFrame(finish, printer)
    else TokenFrame(tokens[0], printer) + Printed(tokens[1..], finish, printer)
  }

  /** events(): one frame a token, then exactly one ending frame. */
  method Events(tokens: seq<string>, finish: Finish, printer: Printer) returns (frames: seq<string>)
    ensures |frames| == |tokens| + 1
    ensures Concat(frames) == Printed(tokens, finish, printer)
  {
    frames := [];
    for i := 0 to |tokens|
      invariant |frames| == i
      invariant Printed(tokens, finish, printer) == Concat(frames) + Printed(tokens[i..], finish, printer)
    {
      var frame := TokenFrame(tokens[i], printer);
      ConcatPush(frames, frame);
      assert tokens[i..][1..] == tokens[i + 1..];
      Associate(Concat(frames), frame, Printed(tokens[i + 1..], finish, printer));
      frames := frames + [frame];
    }
    ConcatPush(frames, LastFrame(finish, printer));
    frames := frames + [LastFrame(finish, printer)];
  }

  /** A payload on one line, as json.dumps prints it. */
  predicate OneLine(s: string) { |s| > 0 && forall i :: 0 <= i < |s| ==> !LineTerminator(s[i]) }

  /** The client's parsers read back what the server's printer wrote. */
  ghost predicate Agree(codec: Codec, printer: Printer) {
    && (forall t :: OneLine(printer.token(t)) && codec.token(printer.token(t)) == Some(t))
    && (forall a :: OneLine(printer.terminal(a)) && codec.terminal(printer.terminal(a)) == Some(a))
    && (forall d :: OneLine(printer.error(d)) && codec.error(printer.error(d)) == Some(d))
  }

  lemma LineEndIs(line: string, rest: string)
    requires forall i :: 0 <= i < |line| ==> !LineTerminator(line[i])
    ensures LineEnd(line + "\n" + rest) == |line| && LineEnd(line) == |line|
  {
    var s := line + "\n" + rest;
    assert s[|line|] == '\n';
    var e := LineEnd(s);
    assert forall i :: 0 <= i < |line| ==> s[i] == line[i];
  }

  /** Reading the two lines of a printed frame. */
  lemma FieldsOfFrame(event: string, data: string)
    requires OneLine(event) && OneLine(data)
    ensures var frame := "event: " + event + "\ndata: " + data;
            Field(frame, "event: ") == Some(event) && Field(frame, "data: ") == Some(data)
  {
    var first, second := "event: " + event, "data: " + data;
    var frame := "event: " + event + "\ndata: " + data;
    assert frame == first + "\n" + second;
    LineEndIs(first, second);
    LineEndIs(second, "");
    assert frame[..|first|] == first;
    assert frame[|first| + 1..] == second;
    assert first[0] == 'e' && "data: "[0] == 'd';
    assert second[..|second|] == second && second[|"data: "|..|second|] == data;
    assert frame[|"event: "|..|first|] == event;
  }

  /** What a printed frame does: a payload that does not parse ends the stream, an unknown event does nothing. */
  lemma FrameMeans(event: string, data: string, codec: Codec, log: Log)
    requires OneLine(event) && OneLine(data)
    ensures var next := Dispatch("event: " + event + "\ndata: " + data, codec, log);
            && (event == "token" ==>
                  if codec.token(data).Some? then next == Log(log.tokens + [codec.token(data).value], log.ending)
                  else next == Log(log.tokens, BadPayload))
            && (event == "terminal" ==> next == Log(log.tokens,
                  if codec.terminal(data).Some? then Terminal(codec.terminal(data).value) else BadPayload))
            && (event == "error" ==> next == Log(log.tokens,
                  if codec.error(data).Some? then ServerError(codec.error(data).value) else BadPayload))
            && (event == "cancelled" ==> next == Log(log.tokens, Cancelled))
            && (event != "token" && event != "terminal" && event != "error" && event != "cancelled" ==> next == log)
  {
    FieldsOfFrame(event, data);
    assert "token" != "terminal" && "token"[0] == 't';
    assert "cancelled"[0] == 'c' && "error"[0] == 'e' && "terminal"[1] == 'e' && "token"[1] == 'o';
  }

  lemma SplitFrame(event: string, data: string, rest: string)
    requires OneLine(event) && OneLine(data)
    ensures Split(Frame(event, data) + rest) == ["event: " + event + "\ndata: " + data] + Split(rest)
  {
    var frame := "event: " + event + "\ndata: " + data;
    var text := Frame(event, data) + rest;
    var first := "event: " + event;
    assert text == frame + (BLANK + rest);
    forall i | 0 <= i < |frame| ensures !SeparatorAt(text, i) {
      assert text[i] == frame[i];
      if i == |first| {
        assert text[i + 1] == frame[i + 1] == 'd';
      } else if i < |first| {
        assert frame[i] == first[i];
        assert i >= 7 ==> first[i] == event[i - 7];
      } else {
        var second := "data: " + data;
        assert frame[i] == second[i - |first| - 1];
        assert i - |first| - 1 >= 6 ==> second[i - |first| - 1] == data[i - |first| - 7];
      }
    }
    assert SeparatorAt(text, |frame|);
    FirstSeparatorIs(text, |frame|);
    assert text[..|frame|] == frame;
    assert text[|frame| + 2..] == rest;
  }

  function EndingOf(finish: Finish): Ending {
    match finish
    case Raised(detail) => ServerError(detail)
    case Returned(None) => Cancelled
    case Returned(Some(answer)) => Terminal(answer)
  }

  function EventOf(finish: Finish, printer: Printer): (string, string) {
    match finish
    case Raised(detail) => ("error", printer.error(detail))
    case Returned(None) => ("cancelled", "{}")
    case Returned(Some(answer)) => ("terminal", printer.terminal(answer))
  }

  lemma DispatchFirst(first: string, rest: seq<string>, codec: Codec, log: Log)
    requires |rest| > 0 && log.ending.Open?
    ensures Last([first] + rest) == Last(rest)
    ensures DispatchAll(Front([first] + rest), codec, log) ==
            DispatchAll(Front(rest), codec, Dispatch(first, codec, log))
  {
    assert Front([first] + rest) == [first] + Front(rest);
    assert ([first] + Front(rest))[1..] == Front(rest);
  }

  /** Splitting the text leaves nothing over, and dispatching its frames takes `log` to `result`. */
  ghost predicate Takes(text: string, codec: Codec, log: Log, result: Log) {
    Last(Split(text)) == "" && DispatchAll(Front(Split(text)), codec, log) == result
  }

  lemma LastFrameEnds(finish: Finish, printer: Printer, codec: Codec, log: Log)
    requires Agree(codec, printer) && log.ending.Open?
    ensures Takes(LastFrame(finish, printer), codec, log, log.(ending := EndingOf(finish)))
  {
    var (event, data) := EventOf(finish, printer);
    assert OneLine(event) && OneLine(data);
    assert LastFrame(finish, printer) == Frame(event, data) + "";
    SplitFrame(event, data, "");
    FieldsOfFrame(event, data);
    assert Split("") == [""];
    DispatchFirst("event: " + event + "\ndata: " + data, [""], codec, log);
  }

  lemma TokenFrameDispatches(token: string, printer: Printer, codec: Codec, log: Log, rest: string, result: Log)
    requires Agree(codec, printer) && log.ending.Open?
    requires Takes(rest, codec, log.(tokens := log.tokens + [token]), result)
    ensures Takes(TokenFrame(token, printer) + rest, codec, log, result)
  {
    assert OneLine("token");
    SplitFrame("token", printer.token(token), rest);
    FieldsOfFrame("token", printer.token(token));
    DispatchFirst("event: " + "token" + "\ndata: " + printer.token(token), Split(rest), codec, log);
  }

  lemma {:induction false} PrintedDispatches(
    tokens: seq<string>, finish: Finish, printer: Printer, codec: Codec, log: Log)
    requires Agree(codec, printer) && log.ending.Open?
    ensures Takes(Printed(tokens, finish, printer), codec, log, Log(log.tokens + tokens, EndingOf(finish)))
    decreases |tokens|
  {
    var result := Log(log.tokens + tokens, EndingOf(finish));
    if tokens == [] {
      LastFrameEnds(finish, printer, codec, log);
      assert result == log.(ending := EndingOf(finish));
    } else {
      var rest := tokens[1..];
      var next := log.(tokens := log.tokens + [tokens[0]]);
      assert next.tokens + rest == log.tokens + tokens;
      PrintedDispatches(rest, finish, printer, codec, next);
      TokenFrameDispatches(tokens[0], printer, codec, log, Printed(rest, finish, printer), result);
    }
  }

  /**
   However the printed text is cut, the client recovers exactly the tokens and the single ending the
   server printed.
   */
  lemma ChatRoundTrip(tokens: seq<string>, finish: Finish, printer: Printer, codec: Codec, chunks: seq<string>)
    requires Agree(codec, printer) && Concat(chunks) == Printed(tokens, finish, printer)
    ensures Whole(Concat(chunks), codec) == Log(tokens, EndingOf(finish))
  {
    PrintedDispatches(tokens, finish, printer, codec, NOTHING);
  }

  // ---------------------------------------------------------- streams cut short

  function PrintedTokens(tokens: seq<string>, printer: Printer): string {
    if tokens == [] then "" else TokenFrame(tokens[0], printer) + PrintedTokens(tokens[1..], printer)
  }

  /** Token frames in front of a text add their tokens, and leave the rest to be read as by itself. */
  ghost predicate TokensFirst(text: string, rest: string, codec: Codec, log: Log, next: Log) {
    && Last(Split(text)) == Last(Split(rest))
    && DispatchAll(Front(Split(text)), codec, log) == DispatchAll(Front(Split(rest)), codec, next)
  }

  lemma OneTokenFirst(token: string, printer: Printer, codec: Codec, log: Log, text: string, rest: string, next: Log)
    requires Agree(codec, printer) && log.ending.Open?
    requires TokensFirst(text, rest, codec, log.(tokens := log.tokens + [token]), next)
    ensures TokensFirst(TokenFrame(token, printer) + text, rest, codec, log, next)
  {
    assert OneLine("token");
    SplitFrame("token", printer.token(token), text);
    FieldsOfFrame("token", printer.token(token));
    DispatchFirst("event: " + "token" + "\ndata: " + printer.token(token), Split(text), codec, log);
  }

  lemma {:induction false} TokensDispatch(tokens: seq<string>, printer: Printer, codec: Codec, log: Log, rest: string)
    requires Agree(codec, printer) && log.ending.Open?
    ensures TokensFirst(PrintedTokens(tokens, printer) + rest, rest, codec, log, Log(log.tokens + tokens, Open))
    decreases |tokens|
  {
    if tokens == [] {
      assert PrintedTokens(tokens, printer) + rest == rest;
      assert log.tokens + tokens == log.tokens;
    } else {
      var later := PrintedTokens(tokens[1..], printer);
      var next := log.(tokens := log.tokens + [tokens[0]]);
      assert next.tokens + tokens[1..] == log.tokens + tokens;
      TokensDispatch(tokens[1..], printer, codec, next, rest);
      OneTokenFirst(tokens[0], printer, codec, log, later + rest, rest, Log(log.tokens + tokens, Open));
      Associate(TokenFrame(tokens[0], printer), later, rest);
    }
  }

  /** A stream that ends after its tokens fails as one without an ending frame. */
  lemma TokensOnly(tokens: seq<string>, printer: Printer, codec: Codec, chunks: seq<string>)
    requires Agree(codec, printer) && Concat(chunks) == PrintedTokens(tokens, printer)
    ensures Whole(Concat(chunks), codec) == Log(tokens, NoTerminal)
  {
    TokensDispatch(tokens, printer, codec, NOTHING, "");
    assert PrintedTokens(tokens, printer) + "" == PrintedTokens(tokens, printer);
    assert [] + tokens == tokens;
    NoSeparator("");
  }

  function Unterminated(event: string, data: string): string { "event: " + event + "\ndata: " + data }

  lemma UnterminatedIsOne(event: string, data: string)
    requires OneLine(event) && OneLine(data)
    ensures Split(Unterminated(event, data)) == [Unterminated(event, data)]
    ensures !Blank(Unterminated(event, data))
  {
    var frame := Unterminated(event, data);
    var first, second := "event: " + event, "data: " + data;
    forall i | 0 <= i < |frame| ensures !SeparatorAt(frame, i) {
      if i == |first| {
        assert i + 1 < |frame| ==> frame[i + 1] == 'd';
      } else if i < |first| {
        assert frame[i] == first[i];
        assert i >= 7 ==> first[i] == event[i - 7];
      } else {
        assert frame[i] == second[i - |first| - 1];
        assert i - |first| - 1 >= 6 ==> second[i - |first| - 1] == data[i - |first| - 7];
      }
    }
    NoSeparator(frame);
    assert frame[0] == 'e';
  }

  lemma UnterminatedCloses(finish: Finish, printer: Printer, codec: Codec, log: Log)
    requires Agree(codec, printer) && log.ending.Open?
    ensures var (event, data) := EventOf(finish, printer);
            Close(Unterminated(event, data), codec, log) == log.(ending := EndingOf(finish))
  {
    var (event, data) := EventOf(finish, printer);
    assert OneLine(event) && OneLine(data);
    UnterminatedIsOne(event, data);
    FieldsOfFrame(event, data);
    assert Unterminated(event, data) == "event: " + event + "\ndata: " + data;
  }

  /** An ending frame counts though the blank line after it never came. */
  lemma UnterminatedEnds(
    tokens: seq<string>, finish: Finish, printer: Printer, codec: Codec, chunks: seq<string>)
    requires Agree(codec, printer)
    requires var (event, data) := EventOf(finish, printer);
             Concat(chunks) == PrintedTokens(tokens, printer) + Unterminated(event, data)
    ensures Whole(Concat(chunks), codec) == Log(tokens, EndingOf(finish))
  {
    var (event, data) := EventOf(finish, printer);
    assert OneLine(event) && OneLine(data);
    TokensDispatch(tokens, printer, codec, NOTHING, Unterminated(event, data));
    assert [] + tokens == tokens;
    UnterminatedIsOne(event, data);
    UnterminatedCloses(finish, printer, codec, Log(tokens, Open));
  }
}
