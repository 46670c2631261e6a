/** The incremental parser of `engine/stream_parser.go`.

`Step` says what one byte does. `EventParser.feed` works on chunks and scans ahead; it is
proved to do exactly what its bytes do one by one, so how a stream is split does not matter. */
module EventParser {
  import opened Text
  import opened EventStream

  const MAX_EVENT_DATA: nat := 0x10_0000
  const DEFAULT_EVENT_TAG := "message"

  datatype Event = Event(tag: string, id: string, data: string, truncated: bool)

  /** What complete lines work on. */
  datatype Core = Core(
    started: bool, data: string, hasData: bool, truncated: bool, name: string, lastID: string, retryMs: nat)

  /** The parser's state: the unfinished line, whether an LF is to be skipped, and the rest. */
  datatype State = State(line: string, skipLF: bool, core: Core)

  const INITIAL := Core(false, "", false, false, "", "", 0)
  const START := State("", false, INITIAL)

  function AppendData(p: Core, value: string): Core {
    if |p.data| + |value| + 1 > MAX_EVENT_DATA then p.(hasData := true, truncated := true)
    else p.(hasData := true, data := p.data + value + "\n")
  }

  function Retry(p: Core, value: string): Core {
    match ParseUint(value, RETRY_LIMIT)
    case Some(ms) => p.(retryMs := ms)
    case None => p
  }

  function Apply(p: Core, field: string, value: string): Core {
    if field == "event" then p.(name := value)
    else if field == "data" then AppendData(p, value)
    else if field == "id" then (if 0 as char in value then p else p.(lastID := value))
    else if field == "retry" then Retry(p, value)
    else p
  }

  function Reset(p: Core): Core {
    p.(data := "", hasData := false, truncated := false, name := "")
  }

  function TrimNewline(data: string): string {
    if data != [] && data[|data| - 1] == '\n' then data[..|data| - 1] else data
  }

  function Dispatch(p: Core): (Core, seq<Event>) {
    (Reset(p),
     if !p.hasData then []
     else [Event(if p.name == "" then DEFAULT_EVENT_TAG else p.name, p.lastID, TrimNewline(p.data), p.truncated)])
  }

  /** What a complete line does. */
  function Consume(p: Core, line: string): (Core, seq<Event>) {
    var text := if p.started then line else TrimPrefix(line, BYTE_ORDER_MARK);
    var q := p.(started := true);
    if text == "" then Dispatch(q)
    else if text[0] == ':' then (q, [])
    else
      var cut := CutAt(text, ':');
      (Apply(q, cut.before, TrimPrefix(cut.after, " ")), [])
  }

  /** What one byte does. */
  function Step(p: State, c: char): (State, seq<Event>) {
    if p.skipLF && c == '\n' then (p.(skipLF := false), [])
    else if IsBreak(c) then
      var done := Consume(p.core, p.line);
      (State("", c == '\r', done.0), done.1)
    else (State(p.line + [c], false, p.core), [])
  }

  /** The same, after some earlier events. */
  function After(events: seq<Event>, later: (State, seq<Event>)): (r: (State, seq<Event>))
    ensures events == [] ==> r == later
  {
    assert [] + later.1 == later.1;
    (later.0, events + later.1)
  }

  lemma AfterAfter(a: seq<Event>, b: seq<Event>, later: (State, seq<Event>))
    ensures After(a, After(b, later)) == After(a + b, later)
  {
    assert a + (b + later.1) == a + b + later.1;
  }

  /** What a run of bytes does, one by one. */
  function Run(p: State, bytes: string): (State, seq<Event>)
    decreases |bytes|
  {
    if bytes == [] then (p, [])
    else
      var first := Step(p, bytes[0]);
      After(first.1, Run(first.0, bytes[1..]))
  }

  /** Splitting a stream changes nothing. */
  lemma {:induction false} RunSplits(p: State, a: string, b: string)
    ensures var first := Run(p, a);
            Run(p, a + b) == After(first.1, Run(first.0, b))
    decreases |a|
  {
    if a == [] {
      assert a + b == b;
    } else {
      var first := Step(p, a[0]);
      var middle := Run(first.0, a[1..]);
      assert (a + b)[1..] == a[1..] + b;
      RunSplits(first.0, a[1..], b);
      AfterAfter(first.1, middle.1, Run(middle.0, b));
    }
  }

  function Concat(chunks: seq<string>): string {
    if chunks == [] then "" else chunks[0] + Concat(chunks[1..])
  }

  function RunChunks(p: State, chunks: seq<string>): (State, seq<Event>)
    decreases |chunks|
  {
    if chunks == [] then (p, [])
    else
      var first := Run(p, chunks[0]);
      After(first.1, RunChunks(first.0, chunks[1..]))
  }

  /** Any split of a byte stream into chunks gives the events and the final state of the whole. */
  lemma {:induction false} ChunksDoNotMatter(p: State, chunks: seq<string>)
    ensures RunChunks(p, chunks) == Run(p, Concat(chunks))
    decreases |chunks|
  {
    if chunks != [] {
      RunSplits(p, chunks[0], Concat(chunks[1..]));
      ChunksDoNotMatter(Run(p, chunks[0]).0, chunks[1..]);
    }
  }

  /** Bytes without a line break only lengthen the line. */
  lemma {:induction false} RunText(p: State, text: string)
    requires !p.skipLF && forall i :: 0 <= i < |text| ==> !IsBreak(text[i])
    ensures Run(p, text) == (p.(line := p.line + text), [])
    decreases |text|
  {
    if text == [] {
      assert p.line + text == p.line;
    } else {
      assert !IsBreak(text[0]);
      RunText(p.(line := p.line + [text[0]]), text[1..]);
      assert p.line + [text[0]] + text[1..] == p.line + text;
    }
  }

  /** The text up to the first break, then the break itself. */
  lemma RunToBreak(p: State, bytes: string)
    requires !p.skipLF
    ensures var at := BreakFrom(bytes);
            at < |bytes| ==>
              var first := Consume(p.core, p.line + bytes[..at]);
              Run(p, bytes) == After(first.1, Run(State("", bytes[at] == '\r', first.0), bytes[at + 1..]))
  {
    var at := BreakFrom(bytes);
    if at < |bytes| {
      RunText(p, bytes[..at]);
      RunSplits(p, bytes[..at], bytes[at..]);
      assert bytes[..at] + bytes[at..] == bytes;
      assert bytes[at..][1..] == bytes[at + 1..];
    }
  }

  /** What complete lines do, one after the other. */
  function RunLines(p: Core, lines: seq<string>): (Core, seq<Event>)
    decreases |lines|
  {
    if lines == [] then (p, [])
    else
      var first := Consume(p, lines[0]);
      var rest := RunLines(first.0, lines[1..]);
      (rest.0, first.1 + rest.1)
  }

  /** After CR, an LF is skipped and anything else is read as if nothing had happened. */
  lemma SkippedLF(p: State, rest: string)
    requires p.skipLF
    ensures var after := Run(p.(skipLF := false), if rest != [] && rest[0] == '\n' then rest[1..] else rest);
            Run(p, rest).1 == after.1 && Run(p, rest).0.core == after.0.core
  {
  }

  /** The first line, its break, and then the rest as if it started there. */
  lemma RunFirstLine(p: Core, bytes: string, at: nat)
    requires at < |bytes| && at == BreakFrom(bytes)
    ensures var first := Consume(p, bytes[..at]);
            var rest := Run(State("", false, first.0), bytes[at + BreakLength(bytes, at)..]);
            var whole := Run(State("", false, p), bytes);
            whole.1 == first.1 + rest.1 && whole.0.core == rest.0.core
  {
    RunToBreak(State("", false, p), bytes);
    assert "" + bytes[..at] == bytes[..at];
    if bytes[at] == '\r' {
      SkippedLF(State("", true, Consume(p, bytes[..at]).0), bytes[at + 1..]);
    }
  }

  ghost predicate IsLineByLine(p: Core, bytes: string) {
    var run, lines := Run(State("", false, p), bytes), RunLines(p, Lines(bytes));
    run.1 == lines.1 && run.0.core == lines.0
  }

  /** Reading byte by byte is reading line by line. */
  lemma {:induction false} RunIsRunLines(p: Core, bytes: string)
    ensures IsLineByLine(p, bytes)
    decreases |bytes|
  {
    var start, at := State("", false, p), BreakFrom(bytes);
    if at == |bytes| {
      RunText(start, bytes);
    } else {
      var rest := bytes[at + BreakLength(bytes, at)..];
      RunIsRunLines(Consume(p, bytes[..at]).0, rest);
      FirstLineThenRest(p, bytes, at, rest);
    }
  }

  lemma FirstLineThenRest(p: Core, bytes: string, at: nat, rest: string)
    requires at < |bytes| && at == BreakFrom(bytes) && rest == bytes[at + BreakLength(bytes, at)..]
    requires IsLineByLine(Consume(p, bytes[..at]).0, rest)
    ensures IsLineByLine(p, bytes)
  {
    RunFirstLine(p, bytes, at);
    LinesSplit(bytes, at, rest);
    LinesThenRest(p, bytes[..at], Lines(rest));
  }

  lemma LinesSplit(bytes: string, at: nat, rest: string)
    requires at < |bytes| && at == BreakFrom(bytes) && rest == bytes[at + BreakLength(bytes, at)..]
    ensures Lines(bytes) == [bytes[..at]] + Lines(rest)
  {
  }

  lemma LinesThenRest(p: Core, line: string, rest: seq<string>)
    ensures var first := Consume(p, line);
            var after := RunLines(first.0, rest);
            RunLines(p, [line] + rest) == (after.0, first.1 + after.1)
  {
    assert ([line] + rest)[1..] == rest;
  }

  /** The parser's state holds the standard's buffers, as long as the data fits. */
  ghost predicate Holds(p: Core, b: Buffers) {
    && p.name == b.eventType && p.lastID == b.lastId && p.retryMs == b.retry
    && (p.hasData <==> b.data != "") && (p.truncated <==> |b.data| > MAX_EVENT_DATA)
    && (!p.truncated ==> p.data == b.data)
    && (b.data != "" ==> b.data[|b.data| - 1] == '\n')
  }

  /** The events are the standard's: the same types, ids and number, and the same data unless it is too long. */
  ghost predicate Conforms(event: Event, to: Dispatched) {
    && event.tag == to.eventType && event.id == to.lastId
    && (event.truncated <==> |to.data| + 1 > MAX_EVENT_DATA)
    && (!event.truncated ==> event.data == to.data)
  }

  ghost predicate AllConform(events: seq<Event>, to: seq<Dispatched>) {
    |events| == |to| && forall i :: 0 <= i < |events| ==> Conforms(events[i], to[i])
  }

  lemma AppendConforms(p: Core, b: Buffers, value: string)
    requires Holds(p, b)
    ensures Holds(AppendData(p, value), b.(data := b.data + value + "\n"))
  {
  }

  lemma ApplyConforms(p: Core, b: Buffers, field: string, value: string)
    requires Holds(p, b)
    ensures Holds(Apply(p, field, value), Process(b, field, value))
  {
    AppendConforms(p, b, value);
  }

  lemma ApplyStarted(p: Core, field: string, value: string)
    ensures Apply(p, field, value).started == p.started
  {
  }

  lemma DispatchConforms(p: Core, b: Buffers)
    requires Holds(p, b) && p.started
    ensures Holds(Dispatch(p).0, Interpret(b, "").0) && AllConform(Dispatch(p).1, Interpret(b, "").1)
  {
  }

  lemma ConsumeConforms(p: Core, b: Buffers, line: string)
    requires Holds(p, b) && p.started
    ensures Holds(Consume(p, line).0, Interpret(b, line).0)
    ensures AllConform(Consume(p, line).1, Interpret(b, line).1)
    ensures Consume(p, line).0.started
  {
    assert p.(started := true) == p;
    if line == "" {
      DispatchConforms(p, b);
    } else if line[0] != ':' {
      var cut := CutAt(line, ':');
      ApplyConforms(p, b, cut.before, TrimPrefix(cut.after, " "));
      ApplyStarted(p, cut.before, TrimPrefix(cut.after, " "));
    }
  }

  lemma {:induction false} LinesConform(p: Core, b: Buffers, lines: seq<string>)
    requires Holds(p, b) && p.started
    ensures Holds(RunLines(p, lines).0, InterpretAll(b, lines).0)
    ensures AllConform(RunLines(p, lines).1, InterpretAll(b, lines).1)
    decreases |lines|
  {
    if lines != [] {
      ConsumeConforms(p, b, lines[0]);
      LinesConform(Consume(p, lines[0]).0, Interpret(b, lines[0]).0, lines[1..]);
    }
  }

  /** The byte order mark has no line break, so it can only start the first line. */
  lemma MarkStartsFirstLine(stream: string)
    ensures var lines := Lines(stream);
            Lines(TrimPrefix(stream, BYTE_ORDER_MARK))
              == if lines == [] then [] else [TrimPrefix(lines[0], BYTE_ORDER_MARK)] + lines[1..]
  {
    var mark, at := BYTE_ORDER_MARK, BreakFrom(stream);
    if mark <= stream {
      MarkIsDropped(stream, stream[3..]);
    } else if at < |stream| {
      assert mark <= stream[..at] ==> mark <= stream;
      assert Lines(stream) == [stream[..at]] + Lines(stream)[1..];
    }
  }

  lemma BreakAfterMark(stream: string, rest: string)
    requires stream == BYTE_ORDER_MARK + rest
    ensures BreakFrom(stream) == BreakFrom(rest) + 3
  {
    var at := BreakFrom(stream);
    assert !IsBreak(stream[0]) && !IsBreak(stream[1]) && !IsBreak(stream[2]);
    assert forall i :: 0 <= i < |rest| ==> rest[i] == stream[i + 3];
    BreakIsUnique(rest, at - 3);
  }

  lemma SlicesAfterMark(stream: string, rest: string, at: nat)
    requires stream == BYTE_ORDER_MARK + rest && 3 <= at < |stream| && IsBreak(stream[at])
    ensures rest[at - 3] == stream[at] && TrimPrefix(stream[..at], BYTE_ORDER_MARK) == rest[..at - 3]
    ensures stream[at + BreakLength(stream, at)..] == rest[at - 3 + BreakLength(rest, at - 3)..]
  {
    assert stream[..at] == BYTE_ORDER_MARK + rest[..at - 3];
    assert BreakLength(stream, at) == BreakLength(rest, at - 3);
  }

  lemma MarkIsDropped(stream: string, rest: string)
    requires stream == BYTE_ORDER_MARK + rest
    ensures var lines := Lines(stream);
            Lines(rest) == if lines == [] then [] else [TrimPrefix(lines[0], BYTE_ORDER_MARK)] + lines[1..]
  {
    var at := BreakFrom(stream);
    BreakAfterMark(stream, rest);
    if at < |stream| {
      var tail := stream[at + BreakLength(stream, at)..];
      SlicesAfterMark(stream, rest, at);
      LinesSplit(stream, at, tail);
      LinesSplit(rest, at - 3, tail);
      assert ([stream[..at]] + Lines(tail))[1..] == Lines(tail);
    }
  }

  lemma BreakIsUnique(s: string, at: nat)
    requires at <= |s| && (at < |s| ==> IsBreak(s[at])) && forall i :: 0 <= i < at ==> !IsBreak(s[i])
    ensures BreakFrom(s) == at
  {
  }

  /** Reading a stream, however it is split, gives the events the standard gives it. */
  lemma ParserConforms(chunks: seq<string>)
    ensures var meant := EventStream.Meaning(Concat(chunks));
            var parsed := RunChunks(START, chunks);
            && AllConform(parsed.1, meant.1)
            && parsed.0.core.lastID == meant.0.lastId && parsed.0.core.retryMs == meant.0.retry
  {
    var stream := Concat(chunks);
    ChunksDoNotMatter(START, chunks);
    RunIsRunLines(INITIAL, stream);
    MarkStartsFirstLine(stream);
    var lines := Lines(stream);
    var started := INITIAL.(started := true);
    if lines != [] {
      var trimmed := [TrimPrefix(lines[0], BYTE_ORDER_MARK)] + lines[1..];
      assert trimmed[1..] == lines[1..];
      assert RunLines(INITIAL, lines) == RunLines(started, trimmed);
      LinesConform(started, Buffers("", "", "", 0), trimmed);
    }
  }

  class EventParser {
    var line: string
    var skipLF: bool
    var started: bool
    var data: string
    var hasData: bool
    var truncated: bool
    var name: string
    var lastID: string
    var retryMs: nat

    function Inner(): Core
      reads this
    {
      Core(started, data, hasData, truncated, name, lastID, retryMs)
    }

    function Now(): State
      reads this
    {
      State(line, skipLF, Inner())
    }

    ghost predicate Valid()
      reads this
    {
      |data| <= MAX_EVENT_DATA
    }

    constructor ()
      ensures Valid() && Now() == START
    {
      line, skipLF, started, data, hasData, truncated := "", false, false, "", false, false;
      name, lastID, retryMs := "", "", 0;
    }

    /** Whatever the split into calls, the parser does what its bytes do one by one. */
    method Feed(chunk: string) returns (events: seq<Event>)
      requires Valid()
      modifies this
      ensures Valid() && (Now(), events) == Run(old(Now()), chunk)
    {
      events := [];
      var rest := chunk;
      while rest != []
        invariant Valid()
        invariant Run(old(Now()), chunk) == After(events, Run(Now(), rest))
        decreases |rest|
      {
        if skipLF {
          skipLF := false;
          if rest[0] == '\n' {
            rest := rest[1..];
            continue;
          }
        }
        ghost var before, known := Now(), events;
        RunToBreak(before, rest);
        var end := BreakFrom(rest);
        if end == |rest| {
          RunText(before, rest);
          line := line + rest;
          assert events + [] == events;
          break;
        }
        line := line + rest[..end];
        skipLF := rest[end] == '\r';
        rest := rest[end + 1..];
        var found := ConsumeLine();
        AfterAfter(known, found, Run(Now(), rest));
        events := events + found;
      }
      assert events + [] == events;
    }

    method ConsumeLine() returns (event: seq<Event>)
      requires Valid()
      modifies this
      ensures Valid() && line == "" && skipLF == old(skipLF) && (Inner(), event) == Consume(old(Inner()), old(line))
    {
      var text := line;
      line := "";
      if !started {
        started := true;
        text := TrimPrefix(text, BYTE_ORDER_MARK);
      }
      if text == "" {
        event := DispatchEvent();
        return;
      }
      if text[0] == ':' {
        return [];
      }
      var cut := CutAt(text, ':');
      ApplyField(cut.before, TrimPrefix(cut.after, " "));
      return [];
    }

    method ApplyField(field: string, value: string)
      requires Valid()
      modifies this`name, this`data, this`hasData, this`truncated, this`lastID, this`retryMs
      ensures Valid() && Inner() == Apply(old(Inner()), field, value)
    {
      match field {
        case "event" => name := value;
        case "data" => AppendValue(value);
        case "id" =>
          if 0 as char !in value {
            lastID := value;
          }
        case "retry" => SetRetry(value);
        case _ =>
      }
    }

    method SetRetry(value: string)
      requires Valid()
      modifies this`retryMs
      ensures Valid() && Inner() == Retry(old(Inner()), value)
    {
      match ParseUint(value, RETRY_LIMIT) {
        case Some(milliseconds) => retryMs := milliseconds;
        case None =>
      }
    }

    method AppendValue(value: string)
      requires Valid()
      modifies this`data, this`hasData, this`truncated
      ensures Valid() && Inner() == AppendData(old(Inner()), value)
    {
      hasData := true;
      if |data| + |value| + 1 > MAX_EVENT_DATA {
        truncated := true;
        return;
      }
      data := data + value + "\n";
    }

    method DispatchEvent() returns (event: seq<Event>)
      requires Valid()
      modifies this`data, this`hasData, this`truncated, this`name
      ensures Valid() && (Inner(), event) == Dispatch(old(Inner()))
    {
      event := if !hasData then []
               else [Event(if name == "" then DEFAULT_EVENT_TAG else name, lastID, TrimNewline(data), truncated)];
      data, hasData, truncated, name := "", false, false, "";
    }
  }
}
