/** The event stream format of sections 9.2.5 and 9.2.6 of the WHATWG HTML standard, as a
function from a whole byte stream to its events. Nothing here is incremental. */
module EventStream {
  import opened Text

  const BYTE_ORDER_MARK: string := [0xEF as char, 0xBB as char, 0xBF as char]
  const RETRY_LIMIT: nat := 0x8000_0000

  predicate IsBreak(c: char) {
    c == '\r' || c == '\n'
  }

  /** The position of the first line break at or after `from`, or the length of the text. */
  function BreakFrom(s: string, from: nat := 0): (at: nat)
    requires from <= |s|
    ensures from <= at <= |s|
    ensures at < |s| ==> IsBreak(s[at])
    ensures forall i :: from <= i < at ==> !IsBreak(s[i])
    decreases |s| - from
  {
    if from == |s| || IsBreak(s[from]) then from else BreakFrom(s, from + 1)
  }

  /** How long the line break at `at` is: CR LF counts as one. */
  function BreakLength(s: string, at: nat): (n: nat)
    requires at < |s| && IsBreak(s[at])
    ensures 1 <= n && at + n <= |s|
  {
    if s[at] == '\r' && at + 1 < |s| && s[at + 1] == '\n' then 2 else 1
  }

  /** The complete lines of a stream: each ends in CR, LF or CR LF. */
  function Lines(s: string): seq<string>
    decreases |s|
  {
    var at := BreakFrom(s);
    if at == |s| then [] else [s[..at]] + Lines(s[at + BreakLength(s, at)..])
  }

  /** The buffers of section 9.2.6 and the reconnection time. */
  datatype Buffers = Buffers(data: string, eventType: string, lastId: string, retry: nat)

  datatype Dispatched = Dispatched(eventType: string, lastId: string, data: string)

  function Process(b: Buffers, field: string, value: string): Buffers {
    if field == "event" then b.(eventType := value)
    else if field == "data" then b.(data := b.data + value + "\n")
    else if field == "id" then (if 0 as char in value then b else b.(lastId := value))
    else if field == "retry" then
      (match ParseUint(value, RETRY_LIMIT) case Some(ms) => b.(retry := ms) case None => b)
    else b
  }

  /** One line: blank lines dispatch, lines starting with a colon are comments. */
  function Interpret(b: Buffers, line: string): (Buffers, seq<Dispatched>) {
    if line == "" then
      var cleared := b.(data := "", eventType := "");
      if b.data == "" then (cleared, [])
      else (cleared, [Dispatched(if b.eventType == "" then "message" else b.eventType, b.lastId, b.data[..|b.data| - 1])])
    else if line[0] == ':' then (b, [])
    else
      var cut := CutAt(line, ':');
      (Process(b, cut.before, TrimPrefix(cut.after, " ")), [])
  }

  function InterpretAll(b: Buffers, lines: seq<string>): (Buffers, seq<Dispatched>)
    decreases |lines|
  {
    if lines == [] then (b, [])
    else
      var first := Interpret(b, lines[0]);
      var rest := InterpretAll(first.0, lines[1..]);
      (rest.0, first.1 + rest.1)
  }

  /** The meaning of a whole stream: one leading byte order mark is ignored. */
  function Meaning(stream: string): (Buffers, seq<Dispatched>) {
    InterpretAll(Buffers("", "", "", 0), Lines(TrimPrefix(stream, BYTE_ORDER_MARK)))
  }
}
