/**
 The price of writing ahead: a power cut between the two marks of an install loses the update.
 */
module LostUpdate {
  import opened CrashSafety
  import opened InstallGate
  import opened Machine
  import opened Packages
  import opened Runs
  import opened Startup
  import opened Wrappers
  import opened WriteAhead

  /** The package counts as applied though nothing is pending. */
  predicate Lost(d: Durable, uid: string) {
    d.disk.Some? && d.disk.value.applied == Some(uid) && Pending(d.disk).None?
  }

  /** The price of writing ahead: power can fail between the two marks of an install, exactly if storage is
      persistent, no other upgrade was pending, every object installed and the first mark was saved. */
  lemma UpdateIsLostExactlyWhen(w: World, c: Choice)
    requires w.state.Install? && !Lost(Durably(w), w.state.package.uid)
    ensures (exists d :: d in HandleInstall(w, c).trail && Lost(d, w.state.package.uid)) <==>
            && w.store.mem.persistent && w.store.mem.upgrade.None? && Target(w, c).Some?
            && c.writes && c.installs >= |w.state.package.Objects(Target(w, c).value)|
    ensures forall d | d in HandleInstall(w, c).trail && Lost(d, w.state.package.uid) :: d.flag == w.flag
  {
    hide InstallOrder, InstallObjects, MarkAndSwap;
    if Target(w, c).Some? {
      var target := Target(w, c).value;
      var (w', ok, trail) := InstallObjects(w, c, target);
      ObjectsTrail(w, c, target);
      SameLength(w.state.package, target);
      MarkedFirst(w', c, target, trail);
      LostAtTheMarks(w', c, target, trail);
    }
  }

  lemma LostAtTheMarks(w: World, c: Choice, target: InstallSet, trail: seq<Durable>)
    requires w.state.Install? && !Lost(Durably(w), w.state.package.uid)
    ensures forall d | d in MarkAndSwap(w, c, target, trail).trail && d !in trail && Lost(d, w.state.package.uid) ::
              d.flag == w.flag && w.store.mem.persistent && w.store.mem.upgrade.None? && c.writes
  {
  }

  /** What is lost stays lost: the next boot is clean, and validation does not let the package through again. */
  lemma LostUpdateIsRefused(cut: Durable, uid: string)
    requires Lost(cut, uid)
    ensures forall b: StartupChoice :: HandleStartup(Boot(cut, b), b) == Started(Boot(cut, b), Clean, [])
    ensures forall b: StartupChoice, env: Env, later: World, choice: Choice
              | later.store.mem == Boot(cut, b).store.mem && later.state.Validation? && later.state.package.uid == uid ::
              HandleValidation(env, later, choice).world.state in {EntryPoint, Error}
  {
  }

  ghost predicate InstallsNothing(env: Env, w: World, choices: seq<Choice>) {
    forall i: nat | i < |choices| :: !Installs(Run(env, w, choices[..i]), choices[i])
  }

  /** It is lost on disk and in memory. */
  ghost predicate KeepsLost(w: World, uid: string) {
    Lost(Durably(w), uid) && w.store.mem.upgrade.None? && w.store.mem.applied == Some(uid)
  }

  lemma StepKeepsLost(env: Env, w: World, c: Choice, uid: string)
    requires KeepsLost(w, uid) && !Installs(w, c)
    ensures KeepsLost(Step(env, w, c).world, uid)
    ensures forall d | d in Step(env, w, c).trail :: Lost(d, uid)
  {
    StepIsQuiet(env, w, c);
    hide Step, Installs;
  }

  lemma {:induction false} RunKeepsLost(env: Env, w: World, choices: seq<Choice>, uid: string)
    requires KeepsLost(w, uid) && InstallsNothing(env, w, choices)
    ensures KeepsLost(Run(env, w, choices), uid)
    ensures forall d | d in RunTrail(env, w, choices) :: Lost(d, uid)
  {
    hide Step, Lost, Installs;
    if choices != [] {
      var front := choices[..|choices| - 1];
      assert forall i: nat | i <= |front| :: front[..i] == choices[..i];
      RunKeepsLost(env, w, front, uid);
      StepKeepsLost(env, Run(env, w, front), choices[|choices| - 1], uid);
    }
  }

  ghost predicate IdleLife(d: Durable, boots: seq<BootChoice>) {
    boots != [] ==>
      var before, b := Life(d, boots[..|boots| - 1]), boots[|boots| - 1];
      IdleLife(d, boots[..|boots| - 1]) && InstallsNothing(b.env, StartedBy(before, b).world, b.steps)
  }

  /** Any number of boots that install nothing, each cut anywhere, leave it lost. */
  lemma {:induction false} LostOverBoots(cut: Durable, uid: string, boots: seq<BootChoice>)
    requires Lost(cut, uid) && IdleLife(cut, boots)
    ensures Lost(Life(cut, boots), uid)
  {
    if boots != [] {
      var before, b := Life(cut, boots[..|boots| - 1]), boots[|boots| - 1];
      LostOverBoots(cut, uid, boots[..|boots| - 1]);
      LostUpdateIsRefused(before, uid);
      RunKeepsLost(b.env, Boot(before, b.startup), b.steps, uid);
    }
  }

  /** Over any number of boots: the first package that is installed again is another one. */
  lemma LostUpdateStaysLost(cut: Durable, uid: string, boots: seq<BootChoice>, b: BootChoice, i: nat)
    requires Lost(cut, uid) && IdleLife(cut, boots) && i < |b.steps|
    requires var w := StartedBy(Life(cut, boots), b).world;
             InstallsNothing(b.env, w, b.steps[..i]) && Installs(Run(b.env, w, b.steps[..i]), b.steps[i])
    ensures var w := StartedBy(Life(cut, boots), b).world;
            AtDispatch(Run(b.env, w, b.steps[..i]), b.steps[i]).state.package.uid != uid
  {
    LostOverBoots(cut, uid, boots);
    var d := Life(cut, boots);
    LostUpdateIsRefused(d, uid);
    assert StartedBy(d, b).world == Boot(d, b.startup);
    hide *;
    FirstInstallIsAnother(b.env, d, b.startup, uid, b.steps, i);
  }

  lemma FirstInstallIsAnother(env: Env, d: Durable, c: StartupChoice, uid: string, choices: seq<Choice>, i: nat)
    requires Lost(d, uid) && i < |choices| && InstallsNothing(env, Boot(d, c), choices[..i])
    requires Installs(Run(env, Boot(d, c), choices[..i]), choices[i])
    ensures AtDispatch(Run(env, Boot(d, c), choices[..i]), choices[i]).state.package.uid != uid
  {
    hide Run, AtDispatch, Installs;
    var w := Boot(d, c);
    EveryInstallWasValidated(env, w, choices, i);
    var front := choices[..i - 1];
    assert choices[..i][..i - 1] == front && forall k: nat | k <= i - 1 :: front[..k] == choices[..i][..k];
    RunKeepsLost(env, w, front, uid);
    DispatchKeepsApplied(Run(env, w, front), choices[i - 1]);
  }

  lemma DispatchKeepsApplied(w: World, c: Choice)
    ensures AtDispatch(w, c).store.mem.applied == w.store.mem.applied
  {
    DrainIsQuiet(w.(token := false), c.pending);
  }

  lemma MarkedFirst(w: World, c: Choice, target: InstallSet, trail: seq<Durable>)
    requires w.state.Install?
    ensures Durably(WithSettings(w, w.store.mem.(applied := Some(w.state.package.uid)), c.writes))
            in MarkAndSwap(w, c, target, trail).trail
  {
    var r := MarkAndSwap(w, c, target, trail);
    assert r.trail[|trail|] == Durably(WithSettings(w, w.store.mem.(applied := Some(w.state.package.uid)), c.writes));
  }
}
