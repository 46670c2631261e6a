/** The reconnecting stream of `engine/stream.go`: `run`, `read`, `accept` and `pause`.

The network and the clock are inputs. A connection is the chunks it delivers and how it
ends; a turn is what happens from one end of a connection to the next. */
module StreamRun {
  import opened Text
  import opened EventParser
  import opened Batching

  const DEFAULT_STREAM_EVENTS: nat := 10_000
  const MAX_STREAM_EVENTS: nat := 100_000
  const DEFAULT_RETRY: nat := 3000
  const MIN_RETRY: nat := 100
  const MAX_RECONNECTS: nat := 25
  const EVENT_OVERHEAD_BYTES: nat := 96

  /** `endReason`: what the network and the context can say; the limits speak for themselves. */
  type Ending = r: Reason | r != MaxEvents && r != MaxBytes witness Closed

  /** The reads that return no error, then the last one and how it ended. */
  datatype Connection = Connection(chunks: seq<string>, last: string, ending: Ending)

  datatype Dialled = Unreachable(ending: Ending) | NotEvents | Carries(connection: Connection)

  /** Whether the context is live when a connection has ended, whether the pause runs out, and what dialling gives. */
  datatype Turn = Turn(live: bool, waited: bool, ending: Ending, dialled: Dialled)

  function EventLimit(requested: int): (limit: nat)
    ensures 1 <= limit <= MAX_STREAM_EVENTS
    ensures 1 <= requested <= MAX_STREAM_EVENTS ==> limit == requested
    ensures requested <= 0 ==> limit == 10_000
    ensures requested > MAX_STREAM_EVENTS ==> limit == 100_000
  {
    if requested <= 0 then DEFAULT_STREAM_EVENTS
    else if requested < MAX_STREAM_EVENTS then requested else MAX_STREAM_EVENTS
  }

  function Max(a: nat, b: nat): nat {
    if a < b then b else a
  }

  function Delay(retryMs: nat, minimum: nat): (ms: nat)
    ensures ms >= MIN_RETRY && ms >= minimum && ms >= retryMs
  {
    Max(if retryMs > 0 then retryMs else DEFAULT_RETRY, Max(MIN_RETRY, minimum))
  }

  /** Where a log stands in the form: Open Event* (Wait Open Event*)* Wait? End. */
  datatype Phase = Before | Reading | Waiting | Ended | Broken

  function NextPhase(phase: Phase, message: Message): Phase {
    match (phase, message)
    case (Before, Open) => Reading
    case (Reading, Occurred(_, _)) => Reading
    case (Reading, Wait(_, _)) => Waiting
    case (Waiting, Open) => Reading
    case (Reading, End(_)) => Ended
    case (Waiting, End(_)) => Ended
    case _ => Broken
  }

  function PhaseOf(log: seq<Message>): Phase {
    if log == [] then Before else NextPhase(PhaseOf(log[..|log| - 1]), log[|log| - 1])
  }

  /** The events of a log, if they are numbered from 1. */
  function EventsOf(log: seq<Message>): Option<seq<Event>> {
    if log == [] then Some([])
    else match EventsOf(log[..|log| - 1])
      case None => None
      case Some(events) =>
        var message := log[|log| - 1];
        if !message.Occurred? then Some(events)
        else if message.index == |events| + 1 then Some(events + [message.event])
        else None
  }

  /** The number of waits of a log, if they are numbered from 1 and long enough. */
  function WaitsOf(log: seq<Message>): Option<nat> {
    if log == [] then Some(0)
    else match WaitsOf(log[..|log| - 1])
      case None => None
      case Some(waits) =>
        var message := log[|log| - 1];
        if !message.Wait? then Some(waits)
        else if message.attempt == waits + 1 && message.retryMs >= MIN_RETRY then Some(waits + 1)
        else None
  }

  lemma LogAppend(log: seq<Message>, message: Message)
    ensures (log + [message])[..|log|] == log
    ensures PhaseOf(log + [message]) == NextPhase(PhaseOf(log), message)
    ensures !message.Occurred? ==> EventsOf(log + [message]) == EventsOf(log)
    ensures !message.Wait? ==> WaitsOf(log + [message]) == WaitsOf(log)
    ensures message.Occurred? && EventsOf(log).Some? && message.index == |EventsOf(log).value| + 1 ==>
              EventsOf(log + [message]) == Some(EventsOf(log).value + [message.event])
    ensures message.Wait? && WaitsOf(log).Some? && message.attempt == WaitsOf(log).value + 1 && message.retryMs >= MIN_RETRY ==>
              WaitsOf(log + [message]) == Some(WaitsOf(log).value + 1)
  {
    assert (log + [message])[..|log|] == log;
  }

  function SizeOf(event: Event): nat {
    |event.tag| + |event.id| + |event.data| + EVENT_OVERHEAD_BYTES
  }

  function SizesOf(events: seq<Event>): nat {
    if events == [] then 0 else SizesOf(events[..|events| - 1]) + SizeOf(events[|events| - 1])
  }

  /** What the reads of a connection return. */
  function ChunksOf(connection: Connection): seq<string> {
    connection.chunks + [connection.last]
  }

  /** The first `n` reads in a row. */
  function Joined(chunks: seq<string>, n: nat): string
    requires n <= |chunks|
  {
    if n == 0 then "" else Joined(chunks, n - 1) + chunks[n - 1]
  }

  /** Everything that connections deliver, one after the other. */
  function BytesOf(connections: seq<Connection>): string {
    if connections == [] then ""
    else
      var chunks := ChunksOf(connections[|connections| - 1]);
      BytesOf(connections[..|connections| - 1]) + Joined(chunks, |chunks|)
  }

  predicate IsLimit(reason: Reason) {
    reason == MaxEvents || reason == MaxBytes
  }

  /** All connections were read to their end; only a limit may have cut the last one short, after some read. */
  ghost predicate IsDelivered(offered: string, connections: seq<Connection>, reason: Reason) {
    if !IsLimit(reason) then offered == BytesOf(connections)
    else
      connections != [] &&
      var chunks := ChunksOf(connections[|connections| - 1]);
      exists n :: 1 <= n <= |chunks| && offered == BytesOf(connections[..|connections| - 1]) + Joined(chunks, n)
  }

  /** `shouldReconnect`. */
  predicate GoesOn(reconnect: bool, turn: Turn, reason: Reason) {
    reconnect && turn.live && (reason == Closed || reason == Failed)
  }

  /** Why a turn ends the session, if it does: the pause was cut short, or no connection carries events. */
  function TurnStops(turn: Turn): Option<Reason> {
    if !turn.waited then Some(turn.ending)
    else match turn.dialled
      case Unreachable(ending) => Some(ending)
      case NotEvents => Some(Failed)
      case Carries(_) => None
  }

  /** The first connection and then those the first `n` turns dialled. */
  ghost function ConnectionsAfter(first: Connection, turns: nat -> Turn, n: nat): (connections: seq<Connection>)
    ensures 1 <= |connections| <= n + 1 && connections[0] == first
  {
    if n == 0 then [first]
    else
      var before := ConnectionsAfter(first, turns, n - 1);
      if TurnStops(turns(n - 1)).Some? then before else before + [turns(n - 1).dialled.connection]
  }

  /** Each of the first `n` turns began when a connection had ended so that the session goes on. */
  ghost predicate IsChain(reconnect: bool, first: Connection, turns: nat -> Turn, n: nat) {
    n == 0 ||
    var before := ConnectionsAfter(first, turns, n - 1);
    IsChain(reconnect, first, turns, n - 1) && |before| == n && GoesOn(reconnect, turns(n - 1), before[n - 1].ending)
  }

  /** Why a session ends: its last turn ended it, or its last connection did, or there were too many turns. */
  ghost predicate EndsFor(reconnect: bool, turns: nat -> Turn, connections: seq<Connection>, attempt: nat, reason: Reason) {
    if |connections| == attempt then attempt > 0 && TurnStops(turns(attempt - 1)) == Some(reason)
    else
      connections != [] &&
      var ending := connections[|connections| - 1].ending;
      || IsLimit(reason)
      || (reason == ending && !GoesOn(reconnect, turns(attempt), ending))
      || (reason == Failed && attempt == MAX_RECONNECTS && GoesOn(reconnect, turns(attempt), ending))
  }

  lemma BytesOfGrows(connections: seq<Connection>, connection: Connection)
    ensures BytesOf(connections + [connection]) == BytesOf(connections) + Joined(ChunksOf(connection), |ChunksOf(connection)|)
    ensures (connections + [connection])[..|connections|] == connections
  {
    assert (connections + [connection])[..|connections|] == connections;
  }

  lemma ReadsUpTo(offered: string, connections: seq<Connection>, connection: Connection, n: nat, reason: Reason)
    requires 1 <= n <= |ChunksOf(connection)| && offered == BytesOf(connections) + Joined(ChunksOf(connection), n)
    requires !IsLimit(reason) ==> n == |ChunksOf(connection)|
    ensures IsDelivered(offered, connections + [connection], reason)
  {
    BytesOfGrows(connections, connection);
  }

  /** What fits of the bytes offered. */
  function Fitting(offered: string, maxBytes: nat): string {
    if |offered| <= maxBytes then offered else offered[..maxBytes]
  }

  /** The events `done` are the first of those in `received`, and exactly so many that the limit is reached. */
  ghost predicate ReachesLimit(reason: Reason, done: seq<Event>, found: seq<Event>, maxEvents: nat, maxBytes: nat, capped: bool) {
    && done <= found
    && match reason
       case MaxEvents => done != [] && |done| == maxEvents && SizesOf(done[..|done| - 1]) <= maxBytes
       case MaxBytes =>
         && |done| < maxEvents
         && (if SizesOf(done) > maxBytes then done != [] && SizesOf(done[..|done| - 1]) <= maxBytes else capped && done == found)
       case _ => false
  }

  datatype Session = Session(reconnect: bool, connections: seq<Connection>, attempt: nat, offered: string)

  /** Where the loop of `run` stands: `ended` is what ended the last connection, or the session if it is over. */
  ghost predicate Stands(first: Connection, turns: nat -> Turn, s: Session, ended: Reason, over: bool) {
    && s.attempt <= MAX_RECONNECTS
    && IsChain(s.reconnect, first, turns, s.attempt) && s.connections == ConnectionsAfter(first, turns, s.attempt)
    && (if over then EndsFor(s.reconnect, turns, s.connections, s.attempt, ended)
        else |s.connections| == s.attempt + 1 && (!IsLimit(ended) ==> ended == s.connections[s.attempt].ending))
    && s.offered in Deliveries(s.connections, ended)
  }

  ghost function Deliveries(connections: seq<Connection>, reason: Reason): iset<string> {
    iset offered: string | IsDelivered(offered, connections, reason)
  }

  ghost function Underway(first: Connection, turns: nat -> Turn, ended: Reason, over: bool): iset<Session> {
    iset s: Session | Stands(first, turns, s, ended, over)
  }

  lemma FirstRead(first: Connection, turns: nat -> Turn, s: Session, ended: Reason)
    requires s.connections == [first] && s.attempt == 0 && IsDelivered(s.offered, s.connections, ended)
    requires IsLimit(ended) || ended == first.ending
    ensures s in Underway(first, turns, ended, false)
  {
  }

  lemma TooManyTurns(first: Connection, turns: nat -> Turn, s: Session, ended: Reason)
    requires s in Underway(first, turns, ended, false) && GoesOn(s.reconnect, turns(s.attempt), ended)
    requires s.attempt >= MAX_RECONNECTS
    ensures s in Underway(first, turns, Failed, true)
  {
  }

  lemma NextTurn(first: Connection, turns: nat -> Turn, before: Session, after: Session, ended: Reason, reason: Reason, over: bool)
    requires before in Underway(first, turns, ended, false) && GoesOn(before.reconnect, turns(before.attempt), ended)
    requires after.reconnect == before.reconnect && after.attempt == before.attempt + 1 <= MAX_RECONNECTS
    requires var stops := TurnStops(turns(before.attempt));
             && (over <==> stops.Some?) && IsDelivered(after.offered, after.connections, reason)
             && if over then stops == Some(reason) && after.connections == before.connections
                else
                  var next := turns(before.attempt).dialled.connection;
                  after.connections == before.connections + [next] && (IsLimit(reason) || reason == next.ending)
    ensures after in Underway(first, turns, reason, over)
  {
    if over {
      TurnStopped(first, turns, before, after, ended, reason);
    } else {
      TurnRead(first, turns, before, after, ended, reason);
    }
  }

  lemma TurnStopped(first: Connection, turns: nat -> Turn, before: Session, after: Session, ended: Reason, reason: Reason)
    requires before in Underway(first, turns, ended, false) && GoesOn(before.reconnect, turns(before.attempt), ended)
    requires after.reconnect == before.reconnect && after.attempt == before.attempt + 1 <= MAX_RECONNECTS
    requires TurnStops(turns(before.attempt)) == Some(reason) && after.connections == before.connections
    requires after.offered in Deliveries(after.connections, reason)
    ensures after in Underway(first, turns, reason, true)
  {
    TurnAdds(first, turns, before.attempt);
    ChainGrows(before.reconnect, first, turns, before.attempt);
  }

  lemma TurnRead(first: Connection, turns: nat -> Turn, before: Session, after: Session, ended: Reason, reason: Reason)
    requires before in Underway(first, turns, ended, false) && GoesOn(before.reconnect, turns(before.attempt), ended)
    requires after.reconnect == before.reconnect && after.attempt == before.attempt + 1 <= MAX_RECONNECTS
    requires TurnStops(turns(before.attempt)).None?
    requires var next := turns(before.attempt).dialled.connection;
             after.connections == before.connections + [next] && (IsLimit(reason) || reason == next.ending)
    requires after.offered in Deliveries(after.connections, reason)
    ensures after in Underway(first, turns, reason, false)
  {
    TurnAdds(first, turns, before.attempt);
    ChainGrows(before.reconnect, first, turns, before.attempt);
  }

  lemma TurnAdds(first: Connection, turns: nat -> Turn, n: nat)
    ensures ConnectionsAfter(first, turns, n + 1) == ConnectionsAfter(first, turns, n)
            + (if TurnStops(turns(n)).Some? then [] else [turns(n).dialled.connection])
  {
  }

  lemma ChainGrows(reconnect: bool, first: Connection, turns: nat -> Turn, n: nat)
    requires IsChain(reconnect, first, turns, n)
    ensures var before := ConnectionsAfter(first, turns, n);
            |before| == n + 1 && GoesOn(reconnect, turns(n), before[n].ending) ==> IsChain(reconnect, first, turns, n + 1)
  {
  }

  lemma SessionEnds(first: Connection, turns: nat -> Turn, s: Session, ended: Reason, over: bool)
    requires s in Underway(first, turns, ended, over) && (over || !GoesOn(s.reconnect, turns(s.attempt), ended))
    ensures s in Underway(first, turns, ended, true)
  {
  }

  /** A stream's state as a value. `offered` is every byte the reads returned, `received` every byte that was
      handed to the parser. */
  datatype View = View(log: seq<Message>, parser: State, events: nat, bytes: nat, emitted: nat, attempt: nat,
    offered: string, received: string, maxEvents: nat, maxBytes: nat)
  {
    ghost predicate Holds(done: seq<Event>) {
      && maxEvents >= 1 && parser == Run(START, received).0
      && |received| == bytes && received == Fitting(offered, maxBytes)
      && WaitsOf(log) == Some(attempt) && attempt <= MAX_RECONNECTS
      && EventsOf(log) == Some(done) && events == |done| && emitted == SizesOf(done)
    }

    /** No limit is reached, every byte offered was received, and every event of them is in the log. */
    ghost predicate Runs() {
      Holds(Run(START, received).1) && received == offered && events < maxEvents && emitted <= maxBytes
    }

    /** A limit was reached: the log has exactly the events up to it. */
    ghost predicate Stops(reason: Reason) {
      && EventsOf(log).Some? && Holds(EventsOf(log).value)
      && ReachesLimit(reason, EventsOf(log).value, Run(START, received).1, maxEvents, maxBytes, |offered| > maxBytes)
    }
  }

  /** The states in which the log holds these events. */
  ghost function Holding(done: seq<Event>): iset<View> {
    iset v: View | v.Holds(done)
  }

  ghost function Live(): iset<View> {
    iset v: View | v.Runs()
  }

  /** The states after a session's last event, or its end, for this reason. */
  ghost function EndedFor(reason: Reason): iset<View> {
    iset v: View | if IsLimit(reason) then v.Stops(reason) else v.Runs()
  }

  class Stream {
    const reconnect: bool
    const maxEvents: nat
    const maxBytes: nat
    const minRetry: nat
    const out: Batcher
    const parser: EventParser
    var events: nat
    var bytes: nat
    var emitted: nat
    var attempt: nat
    // The connections read so far, every byte their reads returned, and every byte handed to the parser.
    ghost var connections: seq<Connection>
    ghost var offered: string
    ghost var received: string

    ghost function Now(): View
      reads this, out, parser
    {
      View(out.log, parser.Now(), events, bytes, emitted, attempt, offered, received, maxEvents, maxBytes)
    }

    ghost predicate Valid()
      reads this, out, parser
    {
      out.Valid() && parser.Valid()
    }

    constructor (reconnect: bool, requested: int, maxBytes: nat, minRetry: nat)
      ensures Valid() && Now() in Live() && out.log == [] && fresh(out) && fresh(parser) && this.maxBytes == maxBytes
      ensures maxEvents == EventLimit(requested) && this.reconnect == reconnect && connections == [] && offered == ""
    {
      this.reconnect, this.maxBytes, this.minRetry := reconnect, maxBytes, minRetry;
      maxEvents := EventLimit(requested);
      out := new Batcher();
      parser := new EventParser();
      events, bytes, emitted, attempt := 0, 0, 0, 0;
      connections, offered, received := [], "", "";
    }

    /** `out.add`, with the batch timer free to fire just before. */
    method Send(message: Message)
      requires out.Valid()
      modifies out
      ensures out.Valid() && out.log == old(out.log) + [message]
    {
      if * {
        out.Flush();
      }
      out.Add(message);
    }

    /** One event of a chunk: `todo` are the ones after it. */
    method Emit(event: Event, ghost done: seq<Event>, ghost todo: seq<Event>) returns (reason: Option<Reason>)
      requires Valid() && Now() in Holding(done) && events < maxEvents && emitted <= maxBytes && PhaseOf(out.log) == Reading
      requires Run(START, received).1 == done + [event] + todo
      modifies this`events, this`emitted, out
      ensures Valid() && PhaseOf(out.log) == Reading && Now() in Holding(done + [event])
      ensures if reason.None? then events < maxEvents && emitted <= maxBytes else IsLimit(reason.value) && Now() in EndedFor(reason.value)
    {
      events := events + 1;
      LogAppend(out.log, Occurred(events, event));
      Send(Occurred(events, event));
      emitted := emitted + SizeOf(event);
      EventGrows(done, event, todo);
      reason := if events >= maxEvents then Some(MaxEvents) else if emitted > maxBytes then Some(MaxBytes) else None;
    }

    /** The events of one chunk, after the ones `before` it. */
    method EmitAll(found: seq<Event>, ghost before: seq<Event>) returns (reason: Option<Reason>)
      requires Valid() && Now() in Holding(before) && events < maxEvents && emitted <= maxBytes && PhaseOf(out.log) == Reading
      requires Run(START, received).1 == before + found
      modifies this`events, this`emitted, out
      ensures Valid() && PhaseOf(out.log) == Reading
      ensures if reason.None? then Now() in Holding(before + found) && events < maxEvents && emitted <= maxBytes
              else IsLimit(reason.value) && Now() in EndedFor(reason.value)
    {
      assert before + found[..0] == before;
      for i := 0 to |found|
        invariant Valid() && PhaseOf(out.log) == Reading
        invariant Now() in Holding(before + found[..i]) && events < maxEvents && emitted <= maxBytes
      {
        SplitAt(before, found, i);
        reason := Emit(found[i], before + found[..i], found[i + 1..]);
        if reason.Some? {
          return;
        }
      }
      assert found[..|found|] == found;
      reason := None;
    }

    /** Feed what fits of a chunk to the parser. */
    method Take(taken: string, ghost chunk: string) returns (found: seq<Event>)
      requires Valid() && Now() in Live() && taken == if |chunk| <= maxBytes - bytes then chunk else chunk[..maxBytes - bytes]
      modifies this`bytes, this`received, this`offered, parser
      ensures Valid() && Now() in Holding(Run(START, old(received)).1) && offered == old(offered) + chunk
      ensures Run(START, received).1 == Run(START, old(received)).1 + found
    {
      bytes := bytes + |taken|;
      RunSplits(START, received, taken);
      FitsMore(offered, chunk, maxBytes);
      received, offered := received + taken, offered + chunk;
      found := parser.Feed(taken);
    }

    method Accept(chunk: string) returns (reason: Option<Reason>)
      requires Valid() && Now() in Live() && PhaseOf(out.log) == Reading
      modifies this`events, this`emitted, this`bytes, this`received, this`offered, out, parser
      ensures Valid() && PhaseOf(out.log) == Reading && offered == old(offered) + chunk
      ensures if reason.None? then Now() in Live() else IsLimit(reason.value) && Now() in EndedFor(reason.value)
    {
      var room := maxBytes - bytes;
      var capped := |chunk| > room;
      ghost var before := Run(START, received).1;
      var found := Take(if capped then chunk[..room] else chunk, chunk);
      reason := EmitAll(found, before);
      if reason.None? && capped {
        reason := Some(MaxBytes);
      }
    }

    /** One read of a connection. */
    method ReadOnce(chunks: seq<string>, n: nat, ghost before: string) returns (limit: Option<Reason>)
      requires Valid() && Now() in Live() && PhaseOf(out.log) == Reading && n < |chunks| && offered == before + Joined(chunks, n)
      modifies this`events, this`emitted, this`bytes, this`received, this`offered, out, parser
      ensures Valid() && PhaseOf(out.log) == Reading && offered == before + Joined(chunks, n + 1)
      ensures if limit.None? then Now() in Live() else IsLimit(limit.value) && Now() in EndedFor(limit.value)
    {
      limit := Accept(chunks[n]);
    }

    /** The reads of a connection, until one of them reaches a limit. */
    method ReadChunks(chunks: seq<string>) returns (limit: Option<Reason>, n: nat)
      requires Valid() && Now() in Live() && PhaseOf(out.log) == Reading && chunks != []
      modifies this`events, this`emitted, this`bytes, this`received, this`offered, out, parser
      ensures Valid() && PhaseOf(out.log) == Reading
      ensures 1 <= n <= |chunks| && offered == old(offered) + Joined(chunks, n)
      ensures if limit.None? then n == |chunks| && Now() in Live() else IsLimit(limit.value) && Now() in EndedFor(limit.value)
    {
      limit := ReadOnce(chunks, 0, offered);
      n := 1;
      while limit.None? && n < |chunks|
        invariant 1 <= n <= |chunks| && offered == old(offered) + Joined(chunks, n)
        invariant Valid() && PhaseOf(out.log) == Reading
        invariant if limit.None? then Now() in Live() else IsLimit(limit.value) && Now() in EndedFor(limit.value)
      {
        limit := ReadOnce(chunks, n, old(offered));
        n := n + 1;
      }
    }

    /** One connection, up to its end or to a limit. */
    method Read(connection: Connection) returns (reason: Reason)
      requires Valid() && Now() in Live() && PhaseOf(out.log) in {Before, Waiting} && offered == BytesOf(connections)
      modifies this`events, this`emitted, this`bytes, this`received, this`offered, this`connections, out, parser
      ensures Valid() && Now() in EndedFor(reason) && PhaseOf(out.log) == Reading
      ensures connections == old(connections) + [connection] && IsDelivered(offered, connections, reason)
      ensures IsLimit(reason) || reason == connection.ending
    {
      ghost var before := connections;
      connections := connections + [connection];
      Begin();
      var limit, n := ReadChunks(ChunksOf(connection));
      reason := if limit.Some? then limit.value else connection.ending;
      ReadsUpTo(offered, before, connection, n, reason);
      if limit.None? {
        LiveEnds(Now(), reason);
      }
    }

    method Begin()
      requires Valid() && Now() in Live() && PhaseOf(out.log) in {Before, Waiting}
      modifies out
      ensures Valid() && Now() in Live() && PhaseOf(out.log) == Reading
    {
      LogAppend(out.log, Open);
      Send(Open);
    }

    method Pause(waited: bool) returns (goesOn: bool)
      requires Valid() && Now() in Live() && PhaseOf(out.log) == Reading && attempt < MAX_RECONNECTS
      modifies this`attempt, out
      ensures Valid() && Now() in Live() && PhaseOf(out.log) == Waiting && attempt == old(attempt) + 1 && goesOn == waited
      ensures out.log == old(out.log) + [Wait(attempt, Delay(Run(START, received).0.core.retryMs, minRetry))]
    {
      attempt := attempt + 1;
      var ms := Delay(parser.retryMs, minRetry);
      LogAppend(out.log, Wait(attempt, ms));
      Send(Wait(attempt, ms));
      goesOn := waited;
    }

    /** One turn of the reconnect loop; the session is over when it stops the session itself. */
    method Reconnect(turn: Turn) returns (reason: Reason, over: bool)
      requires Valid() && Now() in Live() && PhaseOf(out.log) == Reading && attempt < MAX_RECONNECTS && offered == BytesOf(connections)
      modifies this, out, parser
      ensures Valid() && Now() in EndedFor(reason) && PhaseOf(out.log) == (if over then Waiting else Reading)
      ensures attempt == old(attempt) + 1 && (over <==> TurnStops(turn).Some?)
      ensures IsDelivered(offered, connections, reason)
      ensures if over then TurnStops(turn) == Some(reason) && connections == old(connections)
              else
                && connections == old(connections) + [turn.dialled.connection]
                && (IsLimit(reason) || reason == turn.dialled.connection.ending)
    {
      var goesOn := Pause(turn.waited);
      over := TurnStops(turn).Some?;
      if over {
        reason := TurnStops(turn).value;
      } else {
        reason := Read(turn.dialled.connection);
      }
    }

    ghost function Course(): Session
      reads this
    {
      Session(reconnect, connections, attempt, offered)
    }

    /** One round of the loop of `run`. */
    method TakeTurn(first: Connection, turns: nat -> Turn, ended: Reason) returns (reason: Reason, over: bool)
      requires Valid() && Now() in Live() && PhaseOf(out.log) == Reading
      requires Course() in Underway(first, turns, ended, false) && GoesOn(reconnect, turns(attempt), ended)
      modifies this, out, parser
      ensures Valid() && Now() in EndedFor(reason) && PhaseOf(out.log) in {Reading, Waiting} && (!over ==> PhaseOf(out.log) == Reading)
      ensures Course() in Underway(first, turns, reason, over)
      ensures over || attempt > old(attempt)
    {
      ghost var before := Course();
      if attempt >= MAX_RECONNECTS {
        reason, over := Failed, true;
        TooManyTurns(first, turns, before, ended);
      } else {
        reason, over := Reconnect(turns(attempt));
        NextTurn(first, turns, before, Course(), ended, reason, over);
      }
    }

    /** Once the first response carries events, the log is a whole session: it has the form above, its events
        are numbered from 1, and they are the events of what the connections delivered: all of them, or the
        first ones up to exactly the limit that ended the session. */
    method RunStream(first: Dialled, turns: nat -> Turn) returns (reason: Option<Reason>)
      requires Valid() && Now() in Live() && out.log == [] && attempt == 0 && connections == [] && offered == ""
      modifies this, out, parser
      ensures reason.None? <==> !first.Carries?
      ensures reason.None? ==> out.log == []
      ensures reason.Some? ==>
                && PhaseOf(out.log) == Ended && out.log[|out.log| - 1] == End(reason.value)
                && Course() in Underway(first.connection, turns, reason.value, true) && Now() in EndedFor(reason.value)
      ensures Valid() && out.pending == [] && Flatten(out.batches) == out.log
    {
      if !first.Carries? {
        out.Flush();
        return None;
      }
      var ended := Read(first.connection);
      var over := false;
      FirstRead(first.connection, turns, Course(), ended);
      while !over && GoesOn(reconnect, turns(attempt), ended)
        invariant Valid() && Now() in EndedFor(ended) && PhaseOf(out.log) in {Reading, Waiting} && (!over ==> PhaseOf(out.log) == Reading)
        invariant Course() in Underway(first.connection, turns, ended, over)
        decreases !over, MAX_RECONNECTS - attempt
      {
        ended, over := TakeTurn(first.connection, turns, ended);
      }
      SessionEnds(first.connection, turns, Course(), ended, over);
      Finish(ended);
      reason := Some(ended);
    }

    /** The end of a session, and the flush `Stream` defers. */
    method Finish(reason: Reason)
      requires Valid() && Now() in EndedFor(reason) && PhaseOf(out.log) in {Reading, Waiting}
      modifies out
      ensures Valid() && Now() in EndedFor(reason) && PhaseOf(out.log) == Ended && out.log == old(out.log) + [End(reason)]
      ensures out.pending == [] && Flatten(out.batches) == out.log
    {
      LogAppend(out.log, End(reason));
      Send(End(reason));
      out.Flush();
    }
  }

  lemma LiveEnds(v: View, reason: Reason)
    requires v in Live() && !IsLimit(reason)
    ensures v in EndedFor(reason)
  {
  }

  lemma SplitAt(before: seq<Event>, found: seq<Event>, i: nat)
    requires i < |found|
    ensures before + found == before + found[..i] + [found[i]] + found[i + 1..]
    ensures before + found[..i] + [found[i]] == before + found[..i + 1]
  {
  }

  lemma EventGrows(done: seq<Event>, event: Event, todo: seq<Event>)
    ensures (done + [event])[..|done|] == done && done + [event] <= done + [event] + todo
    ensures SizesOf(done + [event]) == SizesOf(done) + SizeOf(event)
  {
    assert (done + [event])[..|done|] == done;
  }

  lemma FitsMore(offered: string, chunk: string, maxBytes: nat)
    requires |offered| <= maxBytes
    ensures var room := maxBytes - |offered|;
            Fitting(offered + chunk, maxBytes) == offered + if |chunk| <= room then chunk else chunk[..room]
  {
  }
}
