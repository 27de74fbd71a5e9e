/**
 A second install before the reboot. The settings name the set the flag was swapped to as pending, so it is
 that set the install writes; and the set a download fetches objects for is then another one.
 */
module SecondInstall {
  import opened CrashSafety
  import opened ExampleRuns
  import opened Machine
  import opened Packages
  import opened Runs
  import opened Wrappers
  import opened WriteAhead

  // ---- A run with one completed install that cannot boot ----

  /** An install that completes swaps the flag and leaves the flagged set pending. */
  lemma InstallCompletes(env: Env, w: World, uid: string)
    requires w.state == Install(ExamplePackage(uid)) && !w.token && !w.blocked && Safe(w) && w.flag == w.booted
    ensures var w' := Step(env, w, NoChoice()).world;
            && w'.state.Reboot? && !w'.token && !w'.blocked && Safe(w')
            && w'.booted == w.booted && w'.flag == w.booted.Other()
            && w'.store.mem.upgrade == Some(w'.flag) && w'.store.mem.applied == Some(uid)
  {
    hide Step;
    InstallsAlone(env, w, NoChoice());
    InstallStaysSafe(w, NoChoice());
    HandlerCompletes(w, uid);
  }

  lemma HandlerCompletes(w: World, uid: string)
    requires w.state == Install(ExamplePackage(uid)) && TargetsOther(w) && w.flag == w.booted
    ensures var w' := HandleInstall(w, NoChoice()).world;
            && w'.state.Reboot? && w'.token == w.token && w'.blocked == w.blocked && w'.flag == w.booted.Other()
            && w'.store.mem.upgrade == Some(w'.flag) && w'.store.mem.applied == Some(uid)
  {
    hide InstallOrder, InstallObjects;
    var target := w.booted.Other();
    assert Target(w, NoChoice()) == Some(target);
    SameLength(w.state.package, target);
    var (w', ok, trail) := InstallObjects(w, NoChoice(), target);
    assert ok;
  }

  /** From a clean start, one install completes: the sets of download and install then differ. */
  lemma OneInstall(w: World, uid: string) returns (choices: seq<Choice>)
    requires JustStarted(w) && Safe(w) && w.flag == w.booted && w.store.mem.applied != Some(uid)
    ensures var at := Run(ExampleEnv(), w, choices);
            && CompletedInstalls(ExampleEnv(), w, choices) == 1
            && at.state.EntryPoint? && !at.token && !at.blocked && Safe(at)
            && at.booted == w.booted && at.flag == w.booted.Other()
            && at.store.mem.upgrade == Some(at.flag) && at.store.mem.applied == Some(uid)
  {
    hide Step, Installs;
    var env := ExampleEnv();
    LocalInstallBegins(w, [], uid);
    hide Run, CompletedInstalls, RunTrail;
    choices := [] + [Prepare(uid)] + [NoChoice()];
    InstallCompletes(env, Run(env, w, choices), uid);
    InstallsAlone(env, Run(env, w, choices), NoChoice());
    OneMoreChoice(env, w, choices, NoChoice());
    choices := choices + [NoChoice()];
    RebootIsCancelled(env, Run(env, w, choices));
    OneMoreChoice(env, w, choices, NoChoice().(callback := Cancel));
    choices := choices + [NoChoice().(callback := Cancel)];
  }

  /** From a clean start, a run in which only one install completes, and power can fail where the device
      cannot boot: a second install has begun to write the set the flag names. */
  lemma OneCompletedInstallIsNotEnough(w: World) returns (choices: seq<Choice>, cut: Durable)
    requires JustStarted(w) && Safe(w) && w.flag == w.booted
    ensures CompletedInstalls(ExampleEnv(), w, choices) == 1
    ensures cut in RunTrail(ExampleEnv(), w, choices) && !SafeToBoot(cut)
  {
    hide Step, Installs, Run, RunTrail, CompletedInstalls, SafeToBoot;
    var env := ExampleEnv();
    var uid := FreshUid(w);
    choices := OneInstall(w, uid);
    assert |uid| + 1 == |uid + "+"|;
    LocalInstallBegins(w, choices, uid + "+");
    choices := choices + [Prepare(uid + "+")] + [NoChoice()];
    SafeIsSafeNow(Run(env, w, choices));
    var c, d := UnsafeInstall(Run(env, w, choices));
    cut := d;
    InstallFails(env, Run(env, w, choices), c);
    OneMoreChoice(env, w, choices, c);
    choices := choices + [c];
  }

  lemma InstallFails(env: Env, w: World, c: Choice)
    requires w.state.Install? && !w.token && !w.blocked && TargetsOther(w)
    requires w.state.package == ExamplePackage(w.state.package.uid) && c == NoChoice().(installs := 0)
    ensures Step(env, w, c).world.state.Error?
    ensures forall d | d in HandleInstall(w, c).trail :: d in Step(env, w, c).trail
  {
    hide HandleInstall, InstallOrder;
    NothingPending(w, c);
    InstallsAlone(env, w, c);
    StepInstalls(env, w, c);
    assert Target(w, c).Some?;
    SameLength(w.state.package, Target(w, c).value);
    InstallWritesInOrder(w, c);
  }

  // ---- The sets of download and install ----

  /** A download takes its set from the flag alone. */
  function DownloadSet(w: World, c: Choice): Option<InstallSet> {
    if c.scripts then Some(w.flag.Other()) else None
  }

  /** It is another set than the one that is validated and installed, exactly while the settings name the set
      the flag names as pending. */
  lemma SetsDifferExactlyWhen(w: World, c: Choice)
    requires c.scripts
    ensures DownloadSet(w, c) != Target(w, c) <==> w.store.mem.upgrade == Some(w.flag)
  {
    if w.store.mem.upgrade.Some? {
      OneOfTwo(w.store.mem.upgrade.value, w.flag);
    }
  }

  /** A run from a clean start reaches such a world. */
  lemma SetsComeToDiffer(w: World, c: Choice) returns (choices: seq<Choice>)
    requires JustStarted(w) && Safe(w) && w.flag == w.booted && c.scripts
    ensures var at := Run(ExampleEnv(), w, choices); DownloadSet(at, c) != Target(at, c)
  {
    hide Run;
    var uid := FreshUid(w);
    choices := OneInstall(w, uid);
    SetsDifferExactlyWhen(Run(ExampleEnv(), w, choices), c);
  }
}
