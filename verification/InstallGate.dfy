/**
 What must have happened before an install: in every run, whatever requests come in, the step before
 it validated the very same package for the very same set.
 */
module InstallGate {
  import opened Machine
  import opened Packages
  import opened Requests
  import opened Runs
  import opened Wrappers

  /** The package is signed if it must be, and suits the device and its requirements. */
  ghost predicate Suits(env: Env, w: World, c: Choice, target: InstallSet)
    requires w.state.Validation?
  {
    var package := w.state.package;
    && (env.hasKey ==> exists s :: w.state.sign == Some(s) && (s, package) in env.verified)
    && (package.hardware.HardwareList? ==> env.hardware in package.hardware.names)
    && (forall o | o in package.Objects(target) :: o.mode in env.modes)
    && (forall o | o in package.Objects(target) :: o !in c.unmet)
  }

  /** All a package must pass before it is installed to `target`. */
  ghost predicate Passes(env: Env, w: World, c: Choice, target: InstallSet)
    requires w.state.Validation?
  {
    && Suits(env, w, c, target)
    && (forall o | o in w.state.package.Objects(target) && !o.remote :: StatusOf(o, w.dir) == Ok(Ready))
    && w.store.mem.applied != Some(w.state.package.uid)
  }

  /** Validation lets a package through to its install exactly when it is downloaded and passes. One that
      suits the device is otherwise dropped if it is the applied one, or else downloaded if that is still
      to be done. Nothing but the state changes. */
  lemma ValidationAcceptsExactlyWhen(env: Env, w: World, c: Choice)
    requires w.state.Validation?
    ensures var next, target := HandleValidation(env, w, c).world.state, Target(w, c);
            var suits := target.Some? && Suits(env, w, c, target.value);
            var applied := w.store.mem.applied == Some(w.state.package.uid);
            && (next.Install? <==> !w.state.requireDownload && target.Some? && Passes(env, w, c, target.value))
            && (next.EntryPoint? <==> suits && applied)
            && (next.Download? <==> suits && !applied && w.state.requireDownload)
            && next in {Install(w.state.package), EntryPoint, Download(w.state.package, w.state.sign), Error}
    ensures HandleValidation(env, w, c) == Go(w, HandleValidation(env, w, c).world.state, [])
  {
    if Target(w, c).Some? {
      var objects := w.state.package.Objects(Target(w, c).value);
      assert forall i | 0 <= i < |objects| :: objects[i] in objects;
    }
  }

  /** A machine blocks only in a state that can be preempted. */
  lemma {:induction false} BlockedIsPreemptive(w: World, requests: seq<Request>)
    requires w.blocked ==> w.state.IsPreemptive()
    ensures Drain(w, requests).world.blocked ==> Drain(w, requests).world.state.IsPreemptive()
  {
    if requests != [] {
      var before := Drain(w, requests[..|requests| - 1]).world;
      BlockedIsPreemptive(w, requests[..|requests| - 1]);
      if !before.blocked {
        RequestEffect(before, requests[|requests| - 1]);
      }
    }
  }

  lemma {:induction false} RequestsStartNoInstall(w: World, requests: seq<Request>)
    requires !w.blocked
    ensures Drain(w, requests).world.state.Install? ==> w.state.Install?
  {
    if requests != [] {
      var before := Drain(w, requests[..|requests| - 1]).world;
      RequestsStartNoInstall(w, requests[..|requests| - 1]);
      if !before.blocked {
        RequestEffect(before, requests[|requests| - 1]);
      }
    }
  }

  lemma InstallEnds(w: World, c: Choice)
    requires w.state.Install?
    ensures HandleInstall(w, c).world.state.Error? || HandleInstall(w, c).world.state.Reboot?
    ensures HandleInstall(w, c).world.blocked == w.blocked
  {
    if Target(w, c).Some? {
      var (w', ok, trail) := InstallObjects(w, c, Target(w, c).value);
      MarkAndSwapEffect(w', c, Target(w, c).value, trail);
    }
  }

  lemma DownloadEnds(w: World, c: Choice)
    requires !w.blocked && w.state.IsHandlingDownload()
    ensures w.state.Download? ==>
              HandleDownload(w, c).world.state in {EntryPoint, Validation(w.state.package, w.state.sign, false), Error}
    ensures w.state.DirectDownload? ==>
              HandleDirectDownload(w, c).world.state in {EntryPoint, PrepareLocalInstall("fetched_pkg"), Error}
    ensures w.state.Download? ==> !HandleDownload(w, c).world.blocked && HandleDownload(w, c).transition.Immediate?
    ensures w.state.DirectDownload? ==>
              !HandleDirectDownload(w, c).world.blocked && HandleDirectDownload(w, c).transition.Immediate?
  {
    OnlyAbortsEndADownload(w, c.during);
    assert Drain(w, UntilReplaced(w, c.during)).world in {w, w.(state := EntryPoint)};
  }

  /** No handler blocks, and only validation leads to an install. */
  lemma DispatchEnds(env: Env, w: World, c: Choice)
    requires !w.blocked
    ensures !Dispatch(env, w, c).world.blocked
    ensures Dispatch(env, w, c).world.state.Install? ==> w.state.Validation?
  {
    hide HandleDownload, HandleDirectDownload, HandleProbe, SkipProbe, HandleInstall;
    match w.state
    case Park =>
    case EntryPoint => EntryPointIsQuiet(env, w, c);
    case Poll =>
    case Validation(_, _, _) => ValidationIsQuiet(env, w, c);
    case DirectDownload(_) => DownloadEnds(w, c);
    case Probe =>
      ProbeHandlerIsQuiet(env, w, c);
      SkippedProbeIsQuiet(w, c);
    case PrepareLocalInstall(_) =>
    case Error =>
    case Download(_, _) => DownloadEnds(w, c);
    case Install(_) => InstallEnds(w, c);
    case Reboot(_) =>
  }

  /** A step that leaves the machine about to install handled a validation that passed. */
  lemma StepIntoInstall(env: Env, w: World, c: Choice)
    requires !w.blocked && Step(env, w, c).world.state.Install?
    ensures var at := AtDispatch(w, c);
            && !at.blocked && at.state.Validation?
            && Target(at, c).Some? && Passes(env, at, c, Target(at, c).value)
            && Step(env, w, c).world == at.(state := Install(at.state.package))
  {
    var at := AtDispatch(w, c);
    BlockedIsPreemptive(w.(token := false), c.pending);
    assert !at.blocked;
    DispatchEnds(env, at, c);
    var handled := Dispatch(env, at, c);
    if !handled.transition.Immediate? {
      WaitingMachineIsWoken(env, at, c);
      RequestsStartNoInstall(handled.world, c.waiting);
    }
    assert handled.transition.Immediate?;
    ValidationAcceptsExactlyWhen(env, at, c);
  }

  /** A step that installs finds the machine about to install, and requests leave it so. */
  lemma InstallingAlready(w: World, c: Choice)
    requires Installs(w, c)
    ensures !w.blocked && w.state.Install? && AtDispatch(w, c) == w.(token := false)
  {
    RequestsStartNoInstall(w.(token := false), c.pending);
    BusyStatesIgnoreRequests(w.(token := false), c.pending);
  }

  /** `installed` goes to the set `validated` passed for, with the same download directory. */
  ghost predicate Follows(env: Env, validated: World, c: Choice, installed: World, next: Choice) {
    && validated.state.Validation?
    && Target(validated, c).Some?
    && Passes(env, validated, c, Target(validated, c).value)
    && installed.state == Install(validated.state.package) && installed.dir == validated.dir
    && Target(installed, next) in {None, Target(validated, c)}
  }

  lemma StepBeforeInstall(env: Env, w: World, c: Choice, next: Choice)
    requires Installs(Step(env, w, c).world, next)
    ensures Follows(env, AtDispatch(w, c), c, AtDispatch(Step(env, w, c).world, next), next)
  {
    hide Installs, AtDispatch, Passes;
    InstallingAlready(Step(env, w, c).world, next);
    if w.blocked {
      assert false;
    } else {
      hide Step;
      StepIntoInstall(env, w, c);
    }
  }

  /** Whenever an install is handled, the step before validated that package, and the install goes to the
      set it was validated for, with the download directory as it was then. */
  lemma EveryInstallWasValidated(env: Env, w: World, choices: seq<Choice>, i: nat)
    requires JustStarted(w) && i < |choices|
    requires Installs(Run(env, w, choices[..i]), choices[i])
    ensures i > 0
    ensures Follows(env, AtDispatch(Run(env, w, choices[..i - 1]), choices[i - 1]), choices[i - 1],
                    AtDispatch(Run(env, w, choices[..i]), choices[i]), choices[i])
  {
    hide Step, Installs, AtDispatch, Follows;
    InstallingAlready(Run(env, w, choices[..i]), choices[i]);
    assert choices[..i] != [];
    assert choices[..i][..i - 1] == choices[..i - 1] && choices[..i][i - 1] == choices[i - 1];
    StepBeforeInstall(env, Run(env, w, choices[..i - 1]), choices[i - 1], choices[i]);
  }
}
