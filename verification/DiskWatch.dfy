/** The disk watcher of `gostman-gui/workspace_watch.go`.

A snapshot stands for the map from paths to file stamps that a walk of the folder returns, and
is taken at one instant. `DiskWatcher` is the code; the runs below let own writes, outside
writes and a poll overlap, split where the mutex is taken and released. */
module DiskWatch {
  import opened Text

  type Snapshot = map<string, (int, int)>

  /** The watcher: the folder it follows, the last agreed state, and a change seen once. */
  datatype Watch = Watch(root: string, baseline: Option<Snapshot>, candidate: Option<Snapshot>)

  /** Go compares a missing map and an empty one as equal. */
  function Contents(snapshot: Option<Snapshot>): Snapshot {
    match snapshot
    case Some(files) => files
    case None => map[]
  }

  /** `settled`: the new watch, and whether a change is reported. */
  function Settled(w: Watch, root: string, current: Snapshot): (Watch, bool) {
    if root != w.root then (Watch(root, Some(current), None), false)
    else if current == Contents(w.baseline) then (w.(candidate := None), false)
    else if w.candidate.None? || current != w.candidate.value then (w.(candidate := Some(current)), false)
    else (w.(baseline := Some(current), candidate := None), true)
  }

  /** The end of `ownWrite`: `before` and `after` are the snapshots around the write. */
  function Absorbed(w: Watch, root: string, before: Snapshot, after: Snapshot): Watch {
    if root == w.root && before == Contents(w.baseline) then w.(baseline := Some(after), candidate := None) else w
  }

  class DiskWatcher {
    var root: string
    var baseline: Option<Snapshot>
    var candidate: Option<Snapshot>

    function Now(): Watch
      reads this
    {
      Watch(root, baseline, candidate)
    }

    constructor ()
      ensures Now() == Watch("", None, None)
    {
      root, baseline, candidate := "", None, None;
    }

    method Settle(folder: string, current: Snapshot) returns (changed: bool)
      modifies this
      ensures (Now(), changed) == Settled(old(Now()), folder, current)
    {
      if folder != root {
        root, baseline, candidate := folder, Some(current), None;
        return false;
      }
      if current == Contents(baseline) {
        candidate := None;
        return false;
      }
      if candidate.None? || current != candidate.value {
        candidate := Some(current);
        return false;
      }
      baseline, candidate := Some(current), None;
      return true;
    }

    method Forget()
      modifies this
      ensures Now() == Watch("", None, None)
    {
      root, baseline, candidate := "", None, None;
    }

    /** `ownWrite`, which holds the mutex throughout: `before` and `after` are the snapshots it takes. */
    method OwnWrite(folder: string, before: Snapshot, after: Snapshot)
      modifies this
      ensures Now() == Absorbed(old(Now()), folder, before, after)
    {
      if folder != root {
        return;
      }
      var untouched := before == Contents(baseline);
      if untouched {
        baseline, candidate := Some(after), None;
      }
    }
  }

  /** The folder on disk, the watcher, the snapshot of a poll that has not settled yet, and the snapshot
      an own write has taken while it holds the mutex. */
  datatype State = State(root: string, disk: Snapshot, watch: Watch, polling: Option<Snapshot>, writing: Option<Snapshot>, reports: nat)

  datatype Action =
    | TakeSnapshot
    | Settle
    | BeginOwn
    | ChangeOwn(files: Snapshot)
    | EndOwn
    | ChangeOutside(files: Snapshot)

  function Step(s: State, action: Action): State {
    match action
    case TakeSnapshot => if s.polling.Some? then s else s.(polling := Some(s.disk))
    case Settle =>
      if s.polling.None? || s.writing.Some? then s
      else
        var settled := Settled(s.watch, s.root, s.polling.value);
        s.(watch := settled.0, polling := None, reports := s.reports + if settled.1 then 1 else 0)
    case BeginOwn => if s.writing.Some? then s else s.(writing := Some(s.disk))
    case ChangeOwn(files) => if s.writing.None? then s else s.(disk := files)
    case EndOwn =>
      if s.writing.None? then s
      else s.(watch := Absorbed(s.watch, s.root, s.writing.value, s.disk), writing := None)
    case ChangeOutside(files) => s.(disk := files)
  }

  function Run(s: State, actions: seq<Action>): State {
    if actions == [] then s else Step(Run(s, actions[..|actions| - 1]), actions[|actions| - 1])
  }

  /** The watcher follows the folder and agrees with it; nothing is under way. */
  predicate IsAdopted(s: State) {
    s.watch.root == s.root && s.watch.baseline == Some(s.disk) && s.watch.candidate.None? && s.polling.None? && s.writing.None?
  }

  ghost predicate OnlyOwn(actions: seq<Action>) {
    forall i :: 0 <= i < |actions| ==> !actions[i].ChangeOutside?
  }

  /** While only own writes happen: between writes the baseline is the folder, and a change seen once is
      stale, so a poll that is still to settle carries the baseline or is the first to see its snapshot. */
  ghost predicate Quiet(s: State) {
    && s.watch.root == s.root && s.watch.baseline.Some?
    && (s.writing.None? ==>
          && s.watch.baseline == Some(s.disk)
          && (s.watch.candidate.Some? && s.polling.Some? ==> s.polling == s.watch.baseline))
    && (s.writing.Some? ==> s.writing == s.watch.baseline)
  }

  lemma StepIsQuiet(s: State, action: Action)
    requires Quiet(s) && !action.ChangeOutside?
    ensures Quiet(Step(s, action)) && Step(s, action).reports == s.reports
  {
  }

  /** Runs with only own writes never report a change, even when a poll's snapshot is older than a finished
      write or was taken in the middle of one. */
  lemma {:induction false} OwnWritesAreNotReported(s: State, actions: seq<Action>)
    requires IsAdopted(s) && OnlyOwn(actions)
    ensures Run(s, actions).reports == s.reports && Quiet(Run(s, actions))
    decreases |actions|
  {
    if actions != [] {
      var init := actions[..|actions| - 1];
      assert forall i :: 0 <= i < |init| ==> init[i] == actions[i];
      OwnWritesAreNotReported(s, init);
      StepIsQuiet(Run(s, init), actions[|actions| - 1]);
    }
  }

  lemma {:induction false} RunThenRun(s: State, a: seq<Action>, b: seq<Action>)
    ensures Run(s, a + b) == Run(Run(s, a), b)
    decreases |b|
  {
    if b == [] {
      assert a + b == a;
    } else {
      assert (a + b)[..|a + b| - 1] == a + b[..|b| - 1];
      RunThenRun(s, a, b[..|b| - 1]);
    }
  }

  lemma RunOne(s: State, action: Action)
    ensures Run(s, [action]) == Step(s, action)
  {
    assert [action][..0] == [];
  }

  ghost predicate OnlyOutside(actions: seq<Action>) {
    forall i :: 0 <= i < |actions| ==> actions[i].ChangeOutside?
  }

  lemma {:induction false} OutsideTouchesOnlyTheDisk(s: State, actions: seq<Action>)
    requires OnlyOutside(actions)
    ensures Run(s, actions) == s.(disk := Run(s, actions).disk)
    decreases |actions|
  {
    if actions != [] {
      var init := actions[..|actions| - 1];
      assert forall i :: 0 <= i < |init| ==> init[i] == actions[i];
      OutsideTouchesOnlyTheDisk(s, init);
      assert actions[|actions| - 1].ChangeOutside?;
    }
  }

  /** A poll: a snapshot, then, after whatever others write, its verdict. */
  lemma PollSettles(s: State, others: seq<Action>)
    requires OnlyOutside(others) && s.polling.None? && s.writing.None?
    ensures var after := Run(s, [TakeSnapshot] + others + [Settle]);
            var settled := Settled(s.watch, s.root, s.disk);
            after == s.(watch := settled.0, disk := after.disk, reports := s.reports + if settled.1 then 1 else 0)
  {
    RunThenRun(s, [TakeSnapshot] + others, [Settle]);
    RunThenRun(s, [TakeSnapshot], others);
    RunOne(s, TakeSnapshot);
    OutsideTouchesOnlyTheDisk(Run(s, [TakeSnapshot]), others);
    RunOne(Run(s, [TakeSnapshot] + others), Settle);
  }

  /** An outside change that two successive polls see, with no own write between, is reported exactly once,
      whatever else is written from outside meanwhile. */
  lemma SeenTwiceIsReported(s: State, during: seq<Action>, between: seq<Action>, again: seq<Action>)
    requires OnlyOutside(during) && OnlyOutside(between) && OnlyOutside(again)
    requires s.watch.root == s.root && s.polling.None? && s.writing.None? && s.disk != Contents(s.watch.baseline)
    requires Run(s, [TakeSnapshot] + during + [Settle] + between).disk == s.disk
    ensures var after := Run(s, [TakeSnapshot] + during + [Settle] + between + ([TakeSnapshot] + again + [Settle]));
            after.reports == s.reports + 1 && after.watch.baseline == Some(s.disk)
  {
    var first := [TakeSnapshot] + during + [Settle];
    PollSettles(s, during);
    RunThenRun(s, first, between);
    OutsideTouchesOnlyTheDisk(Run(s, first), between);
    RunThenRun(s, first + between, [TakeSnapshot] + again + [Settle]);
    PollSettles(Run(s, first + between), again);
  }

  ghost predicate DoesNotEnd(window: seq<Action>) {
    forall i :: 0 <= i < |window| ==> window[i] != EndOwn
  }

  /** While an own write holds the mutex, nothing else changes the watcher. */
  lemma {:induction false} WindowKeepsWatch(s: State, window: seq<Action>)
    requires s.writing.Some? && DoesNotEnd(window)
    ensures var after := Run(s, window);
            after.watch == s.watch && after.writing == s.writing && after.reports == s.reports && after.root == s.root
    decreases |window|
  {
    if window != [] {
      var init := window[..|window| - 1];
      assert forall i :: 0 <= i < |init| ==> init[i] == window[i];
      WindowKeepsWatch(s, init);
      assert window[|window| - 1] != EndOwn;
    }
  }

  /** An own write moves the baseline exactly when the folder agreed with it at the start: a pending outside
      change is never absorbed, and neither is a change seen once. */
  lemma OwnWriteAbsorbsExactly(s: State, window: seq<Action>)
    requires s.writing.None? && DoesNotEnd(window)
    ensures var after := Run(s, [BeginOwn] + window + [EndOwn]);
            && after.reports == s.reports
            && after.watch == if s.watch.root == s.root && s.disk == Contents(s.watch.baseline)
                              then s.watch.(baseline := Some(after.disk), candidate := None) else s.watch
  {
    RunThenRun(s, [BeginOwn] + window, [EndOwn]);
    RunThenRun(s, [BeginOwn], window);
    RunOne(s, BeginOwn);
    WindowKeepsWatch(Run(s, [BeginOwn]), window);
    RunOne(Run(s, [BeginOwn] + window), EndOwn);
  }

  /** The limit of that guarantee: an outside change made while an own write holds the mutex is taken for
      the own write's if the folder agreed with the baseline before, and is never reported afterwards. */
  lemma ChangeDuringOwnWriteIsLost(s: State, files: Snapshot, later: seq<Action>)
    requires IsAdopted(s) && OnlyOwn(later)
    ensures var absorbed := Run(s, [BeginOwn] + [ChangeOutside(files)] + [EndOwn]);
            absorbed.disk == files && IsAdopted(absorbed) && Run(absorbed, later).reports == s.reports
  {
    var window := [ChangeOutside(files)];
    OwnWriteAbsorbsExactly(s, window);
    RunThenRun(s, [BeginOwn] + window, [EndOwn]);
    RunThenRun(s, [BeginOwn], window);
    RunOne(s, BeginOwn);
    RunOne(Run(s, [BeginOwn]), ChangeOutside(files));
    RunOne(Run(s, [BeginOwn] + window), EndOwn);
    OwnWritesAreNotReported(Run(s, [BeginOwn] + window + [EndOwn]), later);
  }
}
