/** The self-updater of `gostman-gui/update_install.go` as atomic steps: one per critical section
of its mutex. Downloads, cancellations, restores and installs run at once, in any order. How this
installation is updated is found out once per process, so the plan is a parameter of a run. */
module Updater {
  import opened Text

  /** The kind of this installation, and whether a staged update is applied on the way out. */
  datatype Plan = Plan(kind: string, appliesOnQuit: bool)

  datatype Phase = Idle | Downloading | Verifying | Ready | Installing | Failed

  datatype Staged = Staged(version: string, kind: string, digest: string)

  /** How far a download goroutine is. `Ending` has looked at its context and is about to report. */
  datatype Download =
    | Resolving
    | Clearing(version: string)
    | Staging(version: string)
    | Checking(version: string)
    | Publishing(staged: Staged)
    | Ending(phase: Phase, version: string)

  /** An install that has taken the staged update: asked for by the user, or on the way out. */
  datatype Install = Install(staged: Staged, onQuit: bool)

  datatype State = State(
    phase: Phase,
    version: string,
    staged: Option<Staged>,
    cancel: Option<nat>,            // the download the stored cancel function belongs to
    downloads: map<nat, Download>,  // the live download goroutines
    started: nat,                   // downloads started so far
    cancelling: map<nat, nat>,      // cancel functions taken but not called yet
    cancelled: set<nat>,            // downloads whose context is cancelled
    installs: map<nat, Install>)    // the installs under way

  const INITIAL := State(Idle, "", None, None, map[], 0, map[], {}, map[])

  datatype Action =
    | DownloadUpdate(asked: string)
    | Resolve(id: nat, found: Option<string>)
    | Clear(id: nat)
    | Progress(id: nat)
    | Verify(id: nat)
    | GiveUp(id: nat)
    | Stage(id: nat, digest: string)
    | Publish(id: nat)
    | End(id: nat)
    | CancelUpdate(call: nat)
    | CallCancel(call: nat)
    | Restore(stored: Staged)
    | TakeStaged(call: nat, quitting: bool)
    | InstallEnds(call: nat, ok: bool)

  predicate IsBusy(phase: Phase) {
    phase in {Downloading, Verifying, Installing}
  }

  predicate IsFetching(phase: Phase) {
    phase in {Downloading, Verifying}
  }

  /** `endDownload`: a cancelled download leaves no trace, another one reports its failure. */
  function Ends(s: State, id: nat, version: string): State {
    s.(downloads := s.downloads[id := if id in s.cancelled then Ending(Idle, "") else Ending(Failed, version)])
  }

  /** One step of a live download goroutine. */
  function DownloadStep(plan: Plan, s: State, id: nat, action: Action): State
    requires id in s.downloads
  {
    match (s.downloads[id], action)
    case (Resolving, Resolve(_, Some(target))) =>
      s.(phase := Downloading, version := target, downloads := s.downloads[id := Clearing(target)])
    case (Resolving, Resolve(_, None)) => Ends(s, id, s.version)
    case (Clearing(target), Clear(_)) => s.(staged := None, downloads := s.downloads[id := Staging(target)])
    case (Staging(target), Progress(_)) => s.(phase := Downloading, version := target)
    case (Staging(target), Verify(_)) => s.(phase := Verifying, version := target, downloads := s.downloads[id := Checking(target)])
    case (Staging(target), GiveUp(_)) => Ends(s, id, target)
    case (Checking(target), GiveUp(_)) => Ends(s, id, target)
    case (Checking(target), Stage(_, digest)) =>
      var staged := Staged(target, plan.kind, digest);
      s.(staged := Some(staged), cancel := None, downloads := s.downloads[id := Publishing(staged)])
    case (Publishing(staged), Publish(_)) => s.(phase := Ready, version := staged.version, downloads := s.downloads - {id})
    case (Ending(phase, version), End(_)) => s.(phase := phase, version := version, downloads := s.downloads - {id})
    case _ => s
  }

  /** `CancelUpdate` up to the end of its critical section: the cancel function is taken, and will be
      called only if a download is under way. */
  function TakeCancel(s: State, call: nat): State {
    var taken := s.(cancel := None);
    var cleared := if s.phase == Failed then taken.(phase := Idle, version := "") else taken;
    if s.cancel.Some? && IsFetching(s.phase) then cleared.(cancelling := s.cancelling[call := s.cancel.value]) else cleared
  }

  /** The end of an install. A staged update of another kind is refused, and the phase stays as it is;
      a failed install is reported, except on the way out; a finished one leaves with the process. */
  function EndInstall(plan: Plan, s: State, call: nat, ok: bool): State
    requires call in s.installs
  {
    var install := s.installs[call];
    var done := s.(installs := s.installs - {call});
    if install.staged.kind != plan.kind || ok || install.onQuit then done
    else done.(phase := Failed, version := install.staged.version)
  }

  function Step(plan: Plan, s: State, action: Action): State {
    match action
    case DownloadUpdate(asked) =>
      if IsBusy(s.phase) then s
      else
        var id := s.started + 1;
        s.(phase := Downloading, version := asked, cancel := Some(id), started := id, downloads := s.downloads[id := Resolving])
    case CancelUpdate(call) => if call in s.cancelling then s else TakeCancel(s, call)
    case CallCancel(call) =>
      if call !in s.cancelling then s
      else s.(cancelling := s.cancelling - {call}, cancelled := s.cancelled + {s.cancelling[call]})
    case Restore(stored) =>
      if s.phase != Idle || stored.kind != plan.kind then s else s.(staged := Some(stored), phase := Ready, version := stored.version)
    case TakeStaged(call, quitting) =>
      if s.staged.None? || s.phase != Ready || call in s.installs || (quitting && !plan.appliesOnQuit) then s
      else s.(phase := Installing, version := s.staged.value.version,
              installs := s.installs[call := Install(s.staged.value, quitting)])
    case InstallEnds(call, ok) => if call !in s.installs then s else EndInstall(plan, s, call, ok)
    case _ => if action.id !in s.downloads then s else DownloadStep(plan, s, action.id, action)
  }

  function Run(plan: Plan, s: State, actions: seq<Action>): State {
    if actions == [] then s else Step(plan, Run(plan, s, actions[..|actions| - 1]), actions[|actions| - 1])
  }

  ghost predicate AtMostOne<T>(m: map<nat, T>) {
    forall a, b :: a in m && b in m ==> a == b
  }

  /** A download goroutine is live exactly while the phase is downloading or verifying, and there is at
      most one; an update that is ready is staged in the same version; at most one install is under way,
      only while installing, and it installs what is staged, which is of this installation's kind; and the stored cancel function belongs to
      the live download. */
  ghost predicate Sound(plan: Plan, s: State) {
    s in Safe(plan)
  }

  ghost function Safe(plan: Plan): iset<State> {
    iset s: State | IsSafe(plan, s)
  }

  ghost predicate IsSafe(plan: Plan, s: State) {
    && (s.staged.Some? ==> s.staged.value.kind == plan.kind)
    && AtMostOne(s.downloads) && (s.downloads != map[] <==> IsFetching(s.phase))
    && (s.phase == Ready ==> s.staged.Some? && s.staged.value.version == s.version)
    && AtMostOne(s.installs) && (s.installs != map[] ==> s.phase == Installing)
    && (s.cancel.Some? && IsFetching(s.phase) ==> s.cancel.value in s.downloads)
    && (forall id :: id in s.downloads ==> id <= s.started && DownloadIsSound(s, s.downloads[id]))
    && (forall call :: call in s.cancelling ==> s.cancelling[call] <= s.started)
    && (forall id :: id in s.cancelled ==> id <= s.started)
    && (forall call :: call in s.installs ==> Some(s.installs[call].staged) == s.staged)
  }

  ghost predicate DownloadIsSound(s: State, download: Download) {
    match download
    case Staging(_) => s.staged.None?
    case Checking(_) => s.staged.None?
    case Publishing(staged) => s.staged == Some(staged) && s.cancel.None?
    case Ending(phase, _) => phase in {Idle, Failed}
    case _ => true
  }

  lemma OnlyDownload(plan: Plan, s: State, id: nat)
    requires Sound(plan, s) && id in s.downloads
    ensures s.downloads - {id} == map[] && IsFetching(s.phase) && s.installs == map[]
    ensures forall download: Download :: s.downloads[id := download] == map[id := download]
  {
    assert s.downloads.Keys == {id};
  }

  lemma DownloadStepIsSound(plan: Plan, s: State, id: nat, action: Action)
    requires Sound(plan, s) && id in s.downloads
    ensures Sound(plan, DownloadStep(plan, s, id, action))
  {
    OnlyDownload(plan, s, id);
    assert DownloadIsSound(s, s.downloads[id]);
  }

  lemma StepIsSound(plan: Plan, s: State, action: Action)
    requires Sound(plan, s)
    ensures Sound(plan, Step(plan, s, action))
  {
    match action
    case DownloadUpdate(asked) =>
      if !IsBusy(s.phase) {
        assert s.downloads == map[] && s.installs == map[];
        assert s.started + 1 in Step(plan, s, action).downloads;
      }
    case CancelUpdate(call) =>
    case CallCancel(call) =>
    case Restore(stored) =>
    case TakeStaged(call, quitting) =>
    case InstallEnds(call, ok) =>
      if call in s.installs {
        assert s.installs.Keys == {call};
        assert s.installs - {call} == map[];
      }
    case _ =>
      if action.id in s.downloads {
        DownloadStepIsSound(plan, s, action.id, action);
      }
  }

  /** Safety over every run. */
  lemma {:induction false} RunIsSound(plan: Plan, actions: seq<Action>)
    ensures Sound(plan, Run(plan, INITIAL, actions))
    decreases |actions|
  {
    if actions != [] {
      RunIsSound(plan, actions[..|actions| - 1]);
      StepIsSound(plan, Run(plan, INITIAL, actions[..|actions| - 1]), actions[|actions| - 1]);
    }
  }

  /** The two mutual exclusions, over every run: at most one download goroutine, live exactly while fetching;
      never two installs at once, and none while a download is live. */
  lemma NeverTwo(plan: Plan, actions: seq<Action>)
    ensures var s := Run(plan, INITIAL, actions);
            && (IsFetching(s.phase) <==> exists id :: s.downloads.Keys == {id})
            && (s.downloads == map[] || exists id :: s.downloads.Keys == {id})
            && (s.installs == map[] || exists call :: s.installs.Keys == {call})
            && (s.installs == map[] || s.downloads == map[])
            && (s.phase == Ready ==> s.staged.Some? && s.staged.value.version == s.version)
  {
    RunIsSound(plan, actions);
    var s := Run(plan, INITIAL, actions);
    if s.downloads != map[] {
      var id :| id in s.downloads;
      assert s.downloads.Keys == {id};
    }
    if s.installs != map[] {
      var call :| call in s.installs;
      assert s.installs.Keys == {call};
    }
  }

  /** A step that the goroutine of this download takes. */
  predicate IsStepOf(action: Action, id: nat) {
    match action
    case Resolve(own, _) => own == id
    case Stage(own, _) => own == id
    case _ => action in {Clear(id), Progress(id), Verify(id), GiveUp(id), Publish(id), End(id)}
  }

  /** A download under way stays under way until its goroutine ends, and meanwhile nothing else writes the phase or the version. */
  lemma OnlyTheDownloadEnds(plan: Plan, actions: seq<Action>, action: Action, id: nat)
    requires id in Run(plan, INITIAL, actions).downloads
    ensures var before, after := Run(plan, INITIAL, actions), Step(plan, Run(plan, INITIAL, actions), action);
            && (id !in after.downloads ==> action in {Publish(id), End(id)})
            && (after.phase != before.phase || after.version != before.version ==> IsStepOf(action, id))
  {
    RunIsSound(plan, actions);
    var s := Run(plan, INITIAL, actions);
    if !IsStepOf(action, id) {
      WritesNothing(plan, s, action, id);
    }
  }

  lemma WritesNothing(plan: Plan, s: State, action: Action, id: nat)
    requires Sound(plan, s) && id in s.downloads && !IsStepOf(action, id)
    ensures Step(plan, s, action).phase == s.phase && Step(plan, s, action).version == s.version
  {
    OnlyDownload(plan, s, id);
    assert s.downloads.Keys == {id};
  }

  /** A cancel function is called only for the download that was live when `CancelUpdate` took it;
      a download started later is never cancelled by it. */
  lemma CancelsTheLiveDownload(plan: Plan, actions: seq<Action>, call: nat)
    requires var s := Run(plan, INITIAL, actions);
             call !in s.cancelling && call in Step(plan, s, CancelUpdate(call)).cancelling
    ensures var s := Run(plan, INITIAL, actions);
            Step(plan, s, CancelUpdate(call)).cancelling[call] in s.downloads
  {
    RunIsSound(plan, actions);
  }

  lemma NewDownloadIsNotCancelled(plan: Plan, actions: seq<Action>, asked: string)
    requires !IsBusy(Run(plan, INITIAL, actions).phase)
    ensures var s := Run(plan, INITIAL, actions + [DownloadUpdate(asked)]);
            s.started in s.downloads && s.started !in s.cancelled && s.cancel == Some(s.started)
            && forall call :: call in s.cancelling ==> s.cancelling[call] != s.started
  {
    RunIsSound(plan, actions);
    assert (actions + [DownloadUpdate(asked)])[..|actions|] == actions;
  }

  /** Installing with no install under way: nothing but the end of the process leads out of it. */
  lemma {:induction false} InstallingStays(plan: Plan, s: State, actions: seq<Action>)
    requires Sound(plan, s) && s.phase == Installing && s.installs == map[]
    ensures var after := Run(plan, s, actions);
            Sound(plan, after) && after.phase == Installing && after.installs == map[] && after.downloads == map[]
    decreases |actions|
  {
    if actions != [] {
      InstallingStays(plan, s, actions[..|actions| - 1]);
      StepIsSound(plan, Run(plan, s, actions[..|actions| - 1]), actions[|actions| - 1]);
    }
  }

  /** An install that ends: a restart that failed is reported and the updater is usable again. Otherwise the
      process is on its way out, because the restart was handed over or the user quits, and the phase stays. */
  lemma InstallEndsExactly(plan: Plan, actions: seq<Action>, call: nat, ok: bool)
    requires call in Run(plan, INITIAL, actions).installs
    ensures var s := Run(plan, INITIAL, actions);
            var after := Step(plan, s, InstallEnds(call, ok));
            && after.installs == map[]
            && if ok || s.installs[call].onQuit
               then forall later: seq<Action> :: Run(plan, after, later).phase == Installing
               else after.phase == Failed && after.version == s.installs[call].staged.version && !IsBusy(after.phase)
  {
    RunIsSound(plan, actions);
    var s := Run(plan, INITIAL, actions);
    var after := Step(plan, s, InstallEnds(call, ok));
    StepIsSound(plan, s, InstallEnds(call, ok));
    assert s.installs.Keys == {call};
    assert s.installs - {call} == map[];
    if ok || s.installs[call].onQuit {
      forall later: seq<Action> ensures Run(plan, after, later).phase == Installing {
        InstallingStays(plan, after, later);
      }
    }
  }

  /** So the kind of a staged update never refuses an install: what is installed is of this installation's kind. */
  lemma InstallsAreOfThisKind(plan: Plan, actions: seq<Action>, call: nat)
    requires call in Run(plan, INITIAL, actions).installs
    ensures Run(plan, INITIAL, actions).installs[call].staged.kind == plan.kind
  {
    RunIsSound(plan, actions);
  }
}
