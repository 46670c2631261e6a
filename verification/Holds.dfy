/** The breakpoint hold protocol of `capture/hold.go`, as atomic steps split where the mutex is
released and at each channel operation. Any number of holds, settles, timeouts and
cancellations run at once: a run is a list of actions in the order they take effect. */
module Holds {
  import opened Text
  import opened BodyEncoding

  const MAX_HELD: nat := 25
  const MAX_METHOD_LENGTH: nat := 32
  const PHASE_RESPONSE := "response"

  datatype Decision = Decision(drop: bool, verb: string, url: string, status: int, body: bytes, bodyEncoding: string)

  datatype Verdict = Edited | TimedOut | Dropped

  predicate IsMethodToken(verb: string) {
    |verb| <= MAX_METHOD_LENGTH && forall i :: 0 <= i < |verb| ==> 'a' <= verb[i] <= 'z' || 'A' <= verb[i] <= 'Z'
  }

  /** `Decision.check`; `upstream` says which addresses `parseUpstream` accepts. */
  predicate Check(upstream: string -> bool, d: Decision, phase: string) {
    d.drop ||
    (DecodedBody(d.body, d.bodyEncoding).Some? &&
     if phase == PHASE_RESPONSE then d.status == 0 || 100 <= d.status <= 599
     else (d.verb == "" || IsMethodToken(d.verb)) && (d.url == "" || upstream(d.url)))
  }

  /** The check as the protocol below uses it. The protocol is sound for every check. */
  function Checking(upstream: string -> bool): (Decision, string) -> bool {
    (d: Decision, phase: string) => Check(upstream, d, phase)
  }

  /** Where the goroutine that holds an exchange is: waiting on its channel, its timer and its context;
      done with a verdict; or gone, its entry removed. */
  datatype Stage =
    | Waiting
    | Concluded(verdict: Verdict, decision: Option<Decision>)
    | Left(verdict: Verdict, decision: Option<Decision>)

  /** One admitted hold: its phase, its buffered channel, its stage, and every decision sent to it so far. */
  datatype Hold = Hold(phase: string, answer: Option<Decision>, stage: Stage, sent: seq<Decision>)

  datatype Settled = Released | NotHeld | Refused | AlreadyReleased

  /** A settle call between its lookup and its send. */
  datatype Settler = Settler(id: nat, decision: Decision)

  datatype State = State(
    last: nat,
    pending: set<nat>,
    holds: map<nat, Hold>,
    settlers: map<nat, Settler>,
    results: map<nat, Settled>)

  const INITIAL := State(0, {}, map[], map[], map[])

  datatype Action =
    | Enter(phase: string)
    | Receive(id: nat)
    | TimeOut(id: nat)
    | Cancel(id: nat)
    | Leave(id: nat)
    | LookUp(call: nat, id: nat, decision: Decision)
    | Send(call: nat)

  predicate IsWaiting(s: State, id: nat) {
    id in s.holds && s.holds[id].stage.Waiting?
  }

  predicate IsConcluded(s: State, id: nat) {
    id in s.holds && s.holds[id].stage.Concluded?
  }

  function Conclude(s: State, id: nat, answer: Option<Decision>, verdict: Verdict, decision: Option<Decision>): State
    requires id in s.holds
  {
    s.(holds := s.holds[id := s.holds[id].(answer := answer, stage := Concluded(verdict, decision))])
  }

  function SendNow(accepts: (Decision, string) -> bool, s: State, call: nat): State
    requires call in s.settlers && s.settlers[call].id in s.holds
  {
    var id, decision := s.settlers[call].id, s.settlers[call].decision;
    var hold := s.holds[id];
    var settled := if !accepts(decision, hold.phase) then Refused
                   else if hold.answer.Some? then AlreadyReleased else Released;
    if settled != Released then Report(s, call, settled)
    else Report(s, call, Released).(holds := s.holds[id := hold.(answer := Some(decision), sent := hold.sent + [decision])])
  }

  /** A settle that returns. */
  function Report(s: State, call: nat, settled: Settled): State {
    s.(settlers := s.settlers - {call}, results := s.results[call := settled])
  }

  /** One atomic step. An action that is not possible now does nothing. */
  function Step(accepts: (Decision, string) -> bool, s: State, action: Action): State {
    match action
    case Enter(phase) =>
      if |s.pending| >= MAX_HELD then s
      else
        var id := s.last + 1;
        s.(last := id, pending := s.pending + {id}, holds := s.holds[id := Hold(phase, None, Waiting, [])])
    case Receive(id) =>
      if !IsWaiting(s, id) || s.holds[id].answer.None? then s
      else
        var decision := s.holds[id].answer.value;
        Conclude(s, id, None, if decision.drop then Dropped else Edited, Some(decision))
    case TimeOut(id) => if !IsWaiting(s, id) then s else Conclude(s, id, s.holds[id].answer, TimedOut, None)
    case Cancel(id) => if !IsWaiting(s, id) then s else Conclude(s, id, s.holds[id].answer, Dropped, None)
    case Leave(id) =>
      if !IsConcluded(s, id) then s
      else
        var stage := s.holds[id].stage;
        s.(pending := s.pending - {id}, holds := s.holds[id := s.holds[id].(stage := Left(stage.verdict, stage.decision))])
    case LookUp(call, id, decision) =>
      if call in s.settlers || call in s.results then s
      else if id in s.pending then s.(settlers := s.settlers[call := Settler(id, decision)])
      else s.(results := s.results[call := NotHeld])
    case Send(call) =>
      if call !in s.settlers || s.settlers[call].id !in s.holds then s else SendNow(accepts, s, call)
  }

  function Run(accepts: (Decision, string) -> bool, s: State, actions: seq<Action>): State {
    if actions == [] then s else Step(accepts, Run(accepts, s, actions[..|actions| - 1]), actions[|actions| - 1])
  }

  /** What a hold got: the first decision ever sent to it, or none. */
  ghost predicate Got(hold: Hold, verdict: Verdict, decision: Option<Decision>) {
    match decision
    case Some(d) => hold.sent != [] && d == hold.sent[0] && verdict == (if d.drop then Dropped else Edited)
    case None => verdict != Edited
  }

  /** The decision a hold has taken from its channel, if any. */
  function Taken(hold: Hold): Option<Decision> {
    match hold.stage
    case Waiting => None
    case Concluded(_, decision) => decision
    case Left(_, decision) => decision
  }

  function Listed(decision: Option<Decision>): seq<Decision> {
    match decision
    case Some(d) => [d]
    case None => []
  }

  /** Every decision sent passed its check, and what was sent is what was taken and then what is in the channel. */
  ghost predicate HoldIsSound(accepts: (Decision, string) -> bool, hold: Hold) {
    hold in SoundHolds(accepts)
  }

  ghost function SoundHolds(accepts: (Decision, string) -> bool): iset<Hold> {
    iset hold: Hold | IsSoundHold(accepts, hold)
  }

  ghost predicate IsSoundHold(accepts: (Decision, string) -> bool, hold: Hold) {
    && (forall i :: 0 <= i < |hold.sent| ==> accepts(hold.sent[i], hold.phase))
    && hold.sent == Listed(Taken(hold)) + Listed(hold.answer)
    && match hold.stage
       case Waiting => true
       case Concluded(verdict, decision) => Got(hold, verdict, decision)
       case Left(verdict, decision) => Got(hold, verdict, decision)
  }

  /** At most 25 are pending; ids run from 1 to the last one given; a hold is pending until it has left;
      every decision sent passed its check, and what a hold took is the first of them. */
  ghost predicate Sound(accepts: (Decision, string) -> bool, s: State) {
    s in Safe(accepts)
  }

  ghost function Safe(accepts: (Decision, string) -> bool): iset<State> {
    iset s: State | IsSafe(accepts, s)
  }

  ghost predicate IsSafe(accepts: (Decision, string) -> bool, s: State) {
    IsNumbered(s) && AreSound(accepts, s.holds) && AreKnown(s)
  }

  ghost predicate IsNumbered(s: State) {
    && |s.pending| <= MAX_HELD
    && (forall id :: id in s.holds <==> 1 <= id <= s.last)
    && (forall id :: id in s.pending <==> id in s.holds && !s.holds[id].stage.Left?)
  }

  ghost predicate AreSound(accepts: (Decision, string) -> bool, holds: map<nat, Hold>) {
    forall id :: id in holds ==> HoldIsSound(accepts, holds[id])
  }

  ghost predicate AreKnown(s: State) {
    forall call :: call in s.settlers ==> s.settlers[call].id in s.holds && call !in s.results
  }

  lemma HoldReplaced(accepts: (Decision, string) -> bool, holds: map<nat, Hold>, id: nat, hold: Hold)
    requires AreSound(accepts, holds) && HoldIsSound(accepts, hold)
    ensures AreSound(accepts, holds[id := hold])
  {
  }

  lemma SoundHold(accepts: (Decision, string) -> bool, s: State, id: nat)
    requires Sound(accepts, s) && id in s.holds
    ensures HoldIsSound(accepts, s.holds[id])
  {
  }

  lemma ConcludeIsSound(accepts: (Decision, string) -> bool, s: State, id: nat, answer: Option<Decision>, verdict: Verdict, decision: Option<Decision>)
    requires Sound(accepts, s) && IsWaiting(s, id) && Got(s.holds[id], verdict, decision)
    requires Listed(s.holds[id].answer) == Listed(decision) + Listed(answer)
    ensures Sound(accepts, Conclude(s, id, answer, verdict, decision))
  {
    var hold := s.holds[id].(answer := answer, stage := Concluded(verdict, decision));
    SoundHold(accepts, s, id);
    ConcludedIsSound(accepts, s.holds[id], hold);
    HoldReplaced(accepts, s.holds, id, hold);
    StaysNumbered(s, id, hold);
  }

  lemma ConcludedIsSound(accepts: (Decision, string) -> bool, before: Hold, after: Hold)
    requires HoldIsSound(accepts, before) && before.stage.Waiting? && after.stage.Concluded?
    requires after == before.(answer := after.answer, stage := after.stage)
    requires Got(before, after.stage.verdict, after.stage.decision)
    requires Listed(before.answer) == Listed(after.stage.decision) + Listed(after.answer)
    ensures HoldIsSound(accepts, after)
  {
  }

  lemma StaysNumbered(s: State, id: nat, hold: Hold)
    requires IsNumbered(s) && id in s.holds && hold.stage.Left? == s.holds[id].stage.Left?
    ensures IsNumbered(s.(holds := s.holds[id := hold]))
  {
  }

  lemma EnterIsNumbered(accepts: (Decision, string) -> bool, s: State, phase: string)
    requires IsNumbered(s) && |s.pending| < MAX_HELD
    ensures IsNumbered(Step(accepts, s, Enter(phase)))
  {
    assert |s.pending + {s.last + 1}| == |s.pending| + 1;
  }

  lemma EnterIsSound(accepts: (Decision, string) -> bool, s: State, phase: string)
    requires Sound(accepts, s)
    ensures Sound(accepts, Step(accepts, s, Enter(phase)))
  {
    if |s.pending| < MAX_HELD {
      EnterIsNumbered(accepts, s, phase);
      HoldReplaced(accepts, s.holds, s.last + 1, Hold(phase, None, Waiting, []));
    }
  }

  lemma LeaveIsNumbered(accepts: (Decision, string) -> bool, s: State, id: nat)
    requires IsNumbered(s) && IsConcluded(s, id)
    ensures IsNumbered(Step(accepts, s, Leave(id)))
  {
    assert |s.pending - {id}| <= |s.pending|;
  }

  lemma LeaveIsSound(accepts: (Decision, string) -> bool, s: State, id: nat)
    requires Sound(accepts, s)
    ensures Sound(accepts, Step(accepts, s, Leave(id)))
  {
    if IsConcluded(s, id) {
      var stage := s.holds[id].stage;
      SoundHold(accepts, s, id);
      LeaveIsNumbered(accepts, s, id);
      HoldReplaced(accepts, s.holds, id, s.holds[id].(stage := Left(stage.verdict, stage.decision)));
    }
  }

  /** What a successful send leaves in a hold. */
  lemma SentIsSound(accepts: (Decision, string) -> bool, hold: Hold, decision: Decision)
    requires HoldIsSound(accepts, hold) && accepts(decision, hold.phase) && hold.answer.None?
    ensures HoldIsSound(accepts, hold.(answer := Some(decision), sent := hold.sent + [decision]))
  {
  }

  lemma ReportIsSound(accepts: (Decision, string) -> bool, s: State, call: nat, settled: Settled)
    requires Sound(accepts, s)
    ensures Sound(accepts, Report(s, call, settled))
  {
  }

  lemma PutIsSound(accepts: (Decision, string) -> bool, s: State, id: nat, hold: Hold)
    requires Sound(accepts, s) && id in s.holds && HoldIsSound(accepts, hold) && hold.stage == s.holds[id].stage
    ensures Sound(accepts, s.(holds := s.holds[id := hold]))
  {
    HoldReplaced(accepts, s.holds, id, hold);
    StaysNumbered(s, id, hold);
  }

  lemma SendIsSound(accepts: (Decision, string) -> bool, s: State, call: nat)
    requires Sound(accepts, s)
    ensures Sound(accepts, Step(accepts, s, Send(call)))
  {
    if call in s.settlers {
      var id, decision := s.settlers[call].id, s.settlers[call].decision;
      var hold := s.holds[id];
      SoundHold(accepts, s, id);
      if accepts(decision, hold.phase) && hold.answer.None? {
        SentIsSound(accepts, hold, decision);
        ReportIsSound(accepts, s, call, Released);
        PutIsSound(accepts, Report(s, call, Released), id, hold.(answer := Some(decision), sent := hold.sent + [decision]));
      } else {
        ReportIsSound(accepts, s, call, if accepts(decision, hold.phase) then AlreadyReleased else Refused);
      }
    }
  }

  lemma StepIsSound(accepts: (Decision, string) -> bool, s: State, action: Action)
    requires Sound(accepts, s)
    ensures Sound(accepts, Step(accepts, s, action))
  {
    match action
    case Enter(phase) => EnterIsSound(accepts, s, phase);
    case Receive(id) =>
      if IsWaiting(s, id) && s.holds[id].answer.Some? {
        var decision := s.holds[id].answer.value;
        assert HoldIsSound(accepts, s.holds[id]);
        ConcludeIsSound(accepts, s, id, None, if decision.drop then Dropped else Edited, Some(decision));
      }
    case TimeOut(id) =>
      if IsWaiting(s, id) {
        ConcludeIsSound(accepts, s, id, s.holds[id].answer, TimedOut, None);
      }
    case Cancel(id) =>
      if IsWaiting(s, id) {
        ConcludeIsSound(accepts, s, id, s.holds[id].answer, Dropped, None);
      }
    case Leave(id) => LeaveIsSound(accepts, s, id);
    case LookUp(call, id, decision) =>
    case Send(call) => SendIsSound(accepts, s, call);
  }

  /** Safety over every run. */
  lemma {:induction false} RunIsSound(accepts: (Decision, string) -> bool, actions: seq<Action>)
    ensures Sound(accepts, Run(accepts, INITIAL, actions))
    decreases |actions|
  {
    if actions != [] {
      RunIsSound(accepts, actions[..|actions| - 1]);
      StepIsSound(accepts, Run(accepts, INITIAL, actions[..|actions| - 1]), actions[|actions| - 1]);
    }
  }

  /** What an edited exchange carries: the first decision sent to it, which passed the check for its phase. */
  lemma EditedIsFirstAndAccepted(accepts: (Decision, string) -> bool, actions: seq<Action>, id: nat)
    requires id in Run(accepts, INITIAL, actions).holds
    ensures var hold := Run(accepts, INITIAL, actions).holds[id];
            !hold.stage.Waiting? && hold.stage.verdict == Edited ==>
              && hold.sent != [] && hold.stage.decision == Some(hold.sent[0])
              && accepts(hold.sent[0], hold.phase) && !hold.sent[0].drop
  {
    RunIsSound(accepts, actions);
    SoundHold(accepts, Run(accepts, INITIAL, actions), id);
  }

  /** With the check of the program: the body of an edited exchange can be decoded. */
  lemma EditedBodyIsReadable(upstream: string -> bool, actions: seq<Action>, id: nat)
    requires id in Run(Checking(upstream), INITIAL, actions).holds
    ensures var hold := Run(Checking(upstream), INITIAL, actions).holds[id];
            !hold.stage.Waiting? && hold.stage.verdict == Edited ==>
              hold.sent != [] && DecodedBody(hold.sent[0].body, hold.sent[0].bodyEncoding).Some?
  {
    EditedIsFirstAndAccepted(Checking(upstream), actions, id);
  }

  /** How a hold may change in one step: it keeps its phase, only gains decisions, and moves forward. */
  ghost predicate Advances(before: Hold, after: Hold) {
    && after.phase == before.phase && before.sent <= after.sent
    && match before.stage
       case Waiting => !after.stage.Left?
       case Concluded(verdict, decision) => after.stage == before.stage || after.stage == Left(verdict, decision)
       case Left(_, _) => after.stage == before.stage
  }

  lemma ConcludeAdvances(s: State, id: nat, answer: Option<Decision>, verdict: Verdict, decision: Option<Decision>, other: nat)
    requires IsWaiting(s, id) && other in s.holds
    ensures var after := Conclude(s, id, answer, verdict, decision);
            other in after.holds && Advances(s.holds[other], after.holds[other])
  {
  }

  lemma SendAdvances(accepts: (Decision, string) -> bool, s: State, call: nat, other: nat)
    requires call in s.settlers && s.settlers[call].id in s.holds && other in s.holds
    ensures var after := SendNow(accepts, s, call);
            other in after.holds && Advances(s.holds[other], after.holds[other])
  {
  }

  lemma StepAdvances(accepts: (Decision, string) -> bool, s: State, action: Action, id: nat)
    requires Sound(accepts, s) && id in s.holds
    ensures var after := Step(accepts, s, action);
            id in after.holds && Advances(s.holds[id], after.holds[id]) && s.last <= after.last
  {
    match action
    case Enter(phase) => assert s.last + 1 !in s.holds;
    case Receive(other) =>
      if IsWaiting(s, other) && s.holds[other].answer.Some? {
        var decision := s.holds[other].answer.value;
        ConcludeAdvances(s, other, None, if decision.drop then Dropped else Edited, Some(decision), id);
      }
    case TimeOut(other) =>
      if IsWaiting(s, other) {
        ConcludeAdvances(s, other, s.holds[other].answer, TimedOut, None, id);
      }
    case Cancel(other) =>
      if IsWaiting(s, other) {
        ConcludeAdvances(s, other, s.holds[other].answer, Dropped, None, id);
      }
    case Leave(other) =>
    case LookUp(call, other, decision) =>
    case Send(call) =>
      if call in s.settlers {
        SendAdvances(accepts, s, call, id);
      }
  }

  lemma NewHoldWaits(accepts: (Decision, string) -> bool, s: State, action: Action, id: nat)
    requires Sound(accepts, s) && id !in s.holds && id in Step(accepts, s, action).holds
    ensures IsWaiting(Step(accepts, s, action), id)
  {
  }

  /** How often hold `id` stopped waiting during a run. */
  ghost function Endings(accepts: (Decision, string) -> bool, actions: seq<Action>, id: nat): nat {
    if actions == [] then 0
    else
      var before := Run(accepts, INITIAL, actions[..|actions| - 1]);
      Endings(accepts, actions[..|actions| - 1], id)
      + if IsWaiting(before, id) && !IsWaiting(Step(accepts, before, actions[|actions| - 1]), id) then 1 else 0
  }

  /** Every admitted hold ends exactly once: never twice, and once it no longer waits it has ended once. */
  lemma {:induction false} EndsOnce(accepts: (Decision, string) -> bool, actions: seq<Action>, id: nat)
    ensures var s := Run(accepts, INITIAL, actions);
            Endings(accepts, actions, id) == if id in s.holds && !IsWaiting(s, id) then 1 else 0
    decreases |actions|
  {
    if actions != [] {
      var init, action := actions[..|actions| - 1], actions[|actions| - 1];
      EndsOnce(accepts, init, id);
      RunIsSound(accepts, init);
      var before := Run(accepts, INITIAL, init);
      if id in before.holds {
        StepAdvances(accepts, before, action, id);
      } else if id in Step(accepts, before, action).holds {
        NewHoldWaits(accepts, before, action, id);
      }
    }
  }

  /** An id is never given to another exchange: an admitted hold keeps its phase for good, and gets an id above all before it. */
  lemma {:induction false} IdsAreNotReused(accepts: (Decision, string) -> bool, actions: seq<Action>, later: seq<Action>, id: nat)
    requires id in Run(accepts, INITIAL, actions).holds
    ensures var before, after := Run(accepts, INITIAL, actions), Run(accepts, INITIAL, actions + later);
            && id in after.holds && id <= before.last <= after.last
            && after.holds[id].phase == before.holds[id].phase && before.holds[id].sent <= after.holds[id].sent
            && (!before.holds[id].stage.Waiting? ==>
                  && !after.holds[id].stage.Waiting? && after.holds[id].stage.verdict == before.holds[id].stage.verdict
                  && after.holds[id].stage.decision == before.holds[id].stage.decision)
    decreases |later|
  {
    RunIsSound(accepts, actions);
    if later == [] {
      assert actions + later == actions;
    } else {
      var init := later[..|later| - 1];
      assert (actions + later)[..|actions + later| - 1] == actions + init;
      IdsAreNotReused(accepts, actions, init, id);
      RunIsSound(accepts, actions + init);
      StepAdvances(accepts, Run(accepts, INITIAL, actions + init), later[|later| - 1], id);
    }
  }

  /** No hold can be stuck: from any reachable state its timer and its own clean-up remove it,
      whatever the others do in between. */
  lemma CanAlwaysLeave(accepts: (Decision, string) -> bool, actions: seq<Action>, others: seq<Action>, id: nat)
    requires id in Run(accepts, INITIAL, actions).pending
    ensures id !in Run(accepts, INITIAL, actions + [TimeOut(id)] + others + [Leave(id)]).pending
  {
    var timed := actions + [TimeOut(id)];
    RunIsSound(accepts, actions);
    assert timed[..|timed| - 1] == actions;
    TimeOutConcludes(accepts, Run(accepts, INITIAL, actions), id);
    IdsAreNotReused(accepts, timed, others, id);
    RunIsSound(accepts, timed + others);
    LeaveRemoves(accepts, Run(accepts, INITIAL, timed + others), id);
    var whole := timed + others + [Leave(id)];
    assert whole[..|whole| - 1] == timed + others;
  }

  lemma TimeOutConcludes(accepts: (Decision, string) -> bool, s: State, id: nat)
    requires Sound(accepts, s) && id in s.pending
    ensures var after := Step(accepts, s, TimeOut(id));
            id in after.holds && !after.holds[id].stage.Waiting?
  {
  }

  lemma LeaveRemoves(accepts: (Decision, string) -> bool, s: State, id: nat)
    requires Sound(accepts, s) && id in s.holds && !s.holds[id].stage.Waiting?
    ensures id !in Step(accepts, s, Leave(id)).pending
  {
  }

  /** A send that succeeds: it puts a decision into the channel of this hold. */
  predicate Releases(accepts: (Decision, string) -> bool, s: State, action: Action, id: nat) {
    && action.Send? && action.call in s.settlers && s.settlers[action.call].id == id && id in s.holds
    && accepts(s.settlers[action.call].decision, s.holds[id].phase) && s.holds[id].answer.None?
  }

  /** How many settles of an id reported success during a run. */
  ghost function Successes(accepts: (Decision, string) -> bool, actions: seq<Action>, id: nat): nat {
    if actions == [] then 0
    else
      var before := Run(accepts, INITIAL, actions[..|actions| - 1]);
      Successes(accepts, actions[..|actions| - 1], id) + if Releases(accepts, before, actions[|actions| - 1], id) then 1 else 0
  }

  /** How many of them came after the hold had taken a decision. */
  ghost function LateSuccesses(accepts: (Decision, string) -> bool, actions: seq<Action>, id: nat): nat {
    if actions == [] then 0
    else
      var before := Run(accepts, INITIAL, actions[..|actions| - 1]);
      LateSuccesses(accepts, actions[..|actions| - 1], id)
      + if Releases(accepts, before, actions[|actions| - 1], id) && Taken(before.holds[id]).Some? then 1 else 0
  }

  /** A settle reports success exactly when its decision goes into the channel. */
  lemma SuccessIsRelease(accepts: (Decision, string) -> bool, actions: seq<Action>, call: nat)
    requires call in Run(accepts, INITIAL, actions).settlers
    ensures var s := Run(accepts, INITIAL, actions);
            var after := Step(accepts, s, Send(call));
            call in after.results && (after.results[call] == Released <==> Releases(accepts, s, Send(call), s.settlers[call].id))
  {
    RunIsSound(accepts, actions);
    SendReports(accepts, Run(accepts, INITIAL, actions), call);
  }

  lemma SendReports(accepts: (Decision, string) -> bool, s: State, call: nat)
    requires Sound(accepts, s) && call in s.settlers
    ensures var after := Step(accepts, s, Send(call));
            call in after.results && (after.results[call] == Released <==> Releases(accepts, s, Send(call), s.settlers[call].id))
  {
  }

  function LateIn(hold: Hold): nat {
    if Taken(hold).Some? && hold.answer.Some? then 1 else 0
  }

  /** How many decisions were sent to an id so far, and how many after one was taken. */
  function SentSoFar(s: State, id: nat): (nat, nat) {
    if id in s.holds then (|s.holds[id].sent|, LateIn(s.holds[id])) else (0, 0)
  }

  function ReleasedNow(accepts: (Decision, string) -> bool, s: State, action: Action, id: nat): (nat, nat) {
    if Releases(accepts, s, action, id) then (1, if Taken(s.holds[id]).Some? then 1 else 0) else (0, 0)
  }

  ghost predicate Counts(before: (nat, nat), now: (nat, nat), after: (nat, nat)) {
    after.0 == before.0 + now.0 && after.1 == before.1 + now.1
  }

  lemma SendReleases(accepts: (Decision, string) -> bool, s: State, call: nat, id: nat)
    requires Sound(accepts, s)
    ensures Counts(SentSoFar(s, id), ReleasedNow(accepts, s, Send(call), id), SentSoFar(Step(accepts, s, Send(call)), id))
  {
    if call in s.settlers && s.settlers[call].id == id {
      assert HoldIsSound(accepts, s.holds[id]);
    }
  }

  lemma ConcludeReleases(accepts: (Decision, string) -> bool, s: State, other: nat, answer: Option<Decision>, verdict: Verdict, decision: Option<Decision>, id: nat)
    requires Sound(accepts, s) && IsWaiting(s, other) && (decision.Some? ==> answer.None?)
    ensures SentSoFar(Conclude(s, other, answer, verdict, decision), id) == SentSoFar(s, id)
  {
  }

  lemma EnterReleases(accepts: (Decision, string) -> bool, s: State, phase: string, id: nat)
    requires Sound(accepts, s)
    ensures SentSoFar(Step(accepts, s, Enter(phase)), id) == SentSoFar(s, id)
  {
    assert s.last + 1 !in s.holds;
  }

  lemma LeaveReleases(accepts: (Decision, string) -> bool, s: State, other: nat, id: nat)
    ensures SentSoFar(Step(accepts, s, Leave(other)), id) == SentSoFar(s, id)
  {
  }

  lemma StepReleases(accepts: (Decision, string) -> bool, s: State, action: Action, id: nat)
    requires Sound(accepts, s)
    ensures Counts(SentSoFar(s, id), ReleasedNow(accepts, s, action, id), SentSoFar(Step(accepts, s, action), id))
  {
    match action
    case Enter(phase) => EnterReleases(accepts, s, phase, id);
    case Receive(other) =>
      if IsWaiting(s, other) && s.holds[other].answer.Some? {
        var decision := s.holds[other].answer.value;
        ConcludeReleases(accepts, s, other, None, if decision.drop then Dropped else Edited, Some(decision), id);
      }
    case TimeOut(other) =>
      if IsWaiting(s, other) {
        ConcludeReleases(accepts, s, other, s.holds[other].answer, TimedOut, None, id);
      }
    case Cancel(other) =>
      if IsWaiting(s, other) {
        ConcludeReleases(accepts, s, other, s.holds[other].answer, Dropped, None, id);
      }
    case Leave(other) => LeaveReleases(accepts, s, other, id);
    case LookUp(call, other, decision) =>
    case Send(call) => SendReleases(accepts, s, call, id);
  }

  lemma {:induction false} SuccessesAreSent(accepts: (Decision, string) -> bool, actions: seq<Action>, id: nat)
    ensures var s := Run(accepts, INITIAL, actions);
            SentSoFar(s, id) == (Successes(accepts, actions, id), LateSuccesses(accepts, actions, id))
    decreases |actions|
  {
    if actions != [] {
      var init := actions[..|actions| - 1];
      SuccessesAreSent(accepts, init, id);
      RunIsSound(accepts, init);
      StepReleases(accepts, Run(accepts, INITIAL, init), actions[|actions| - 1], id);
    }
  }

  /** At most two settles of an exchange report success, and two do exactly when one was sent after the hold
      had taken the first: the channel is emptied before the entry is removed. */
  lemma TwoSucceedExactly(accepts: (Decision, string) -> bool, actions: seq<Action>, id: nat)
    ensures LateSuccesses(accepts, actions, id) <= 1 && Successes(accepts, actions, id) <= 2
    ensures Successes(accepts, actions, id) == 2 <==> LateSuccesses(accepts, actions, id) == 1
  {
    SuccessesAreSent(accepts, actions, id);
    RunIsSound(accepts, actions);
    var s := Run(accepts, INITIAL, actions);
    if id in s.holds {
      assert HoldIsSound(accepts, s.holds[id]);
    }
  }

  /** It happens for every pair of decisions that pass the check, in either phase: both calls look the hold up
      while it waits, and the second sends once the hold has taken the first. The hold keeps the first. */
  lemma BothSettlesCanSucceed(accepts: (Decision, string) -> bool, phase: string, first: Decision, second: Decision)
    requires accepts(first, phase) && accepts(second, phase)
    ensures var s := Run(accepts, INITIAL, [Enter(phase), LookUp(1, 1, first), LookUp(2, 1, second), Send(1), Receive(1), Send(2)]);
            && s.results == map[1 := Released, 2 := Released]
            && 1 in s.holds && s.holds[1].stage == Concluded(if first.drop then Dropped else Edited, Some(first))
  {
    var a, b := [Enter(phase), LookUp(1, 1, first), LookUp(2, 1, second)], [Send(1), Receive(1), Send(2)];
    RunThree(accepts, INITIAL, a[0], a[1], a[2]);
    SecondSendSucceeds(accepts, Run(accepts, INITIAL, a), phase, first, second);
    RunThree(accepts, Run(accepts, INITIAL, a), b[0], b[1], b[2]);
    RunThenRun(accepts, INITIAL, a, b);
    assert a + b == [Enter(phase), LookUp(1, 1, first), LookUp(2, 1, second), Send(1), Receive(1), Send(2)];
  }

  lemma SecondSendSucceeds(accepts: (Decision, string) -> bool, s: State, phase: string, first: Decision, second: Decision)
    requires s == State(1, {1}, map[1 := Hold(phase, None, Waiting, [])], map[1 := Settler(1, first), 2 := Settler(1, second)], map[])
    requires accepts(first, phase) && accepts(second, phase)
    ensures var after := Step(accepts, Step(accepts, Step(accepts, s, Send(1)), Receive(1)), Send(2));
            && after.results == map[1 := Released, 2 := Released]
            && 1 in after.holds && after.holds[1].stage == Concluded(if first.drop then Dropped else Edited, Some(first))
  {
    var sent := Step(accepts, s, Send(1));
    assert sent.holds[1] == Hold(phase, Some(first), Waiting, [first]) && sent.settlers[2] == Settler(1, second);
    var taken := Step(accepts, sent, Receive(1));
    assert taken.holds[1].answer.None? && taken.holds[1].phase == phase && taken.settlers == sent.settlers;
  }

  lemma RunThree(accepts: (Decision, string) -> bool, s: State, a: Action, b: Action, c: Action)
    ensures Run(accepts, s, [a, b, c]) == Step(accepts, Step(accepts, Step(accepts, s, a), b), c)
  {
    assert [a, b, c][..2] == [a, b] && [a, b][..1] == [a] && [a][..0] == [];
    assert Run(accepts, s, [a]) == Step(accepts, s, a);
    assert Run(accepts, s, [a, b]) == Step(accepts, Step(accepts, s, a), b);
  }

  lemma {:induction false} RunThenRun(accepts: (Decision, string) -> bool, s: State, a: seq<Action>, b: seq<Action>)
    ensures Run(accepts, s, a + b) == Run(accepts, Run(accepts, s, a), b)
    decreases |b|
  {
    if b == [] {
      assert a + b == a;
    } else {
      assert (a + b)[..|a + b| - 1] == a + b[..|b| - 1];
      RunThenRun(accepts, s, a, b[..|b| - 1]);
    }
  }
}
