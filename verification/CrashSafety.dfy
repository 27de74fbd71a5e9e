/**
 Power cuts at any durable write, over any number of boots: what the boot loader may find, and what
 startup makes of it.
 */
module CrashSafety {
  import opened Machine
  import opened Packages
  import opened Runs
  import opened Startup
  import opened Wrappers
  import opened WriteAhead

  // ---- What boots ----

  /** The set is as it was when it last booted, or all of a package was installed to it since. */
  predicate Bootable(image: Image) {
    !image.Torn?
  }

  /** The flagged set can boot; and if it is the pending one, the other set can too, for a rollback. */
  ghost predicate SafeToBoot(d: Durable) {
    && Bootable(d.images.Of(d.flag))
    && (Pending(d.disk) == Some(d.flag) ==> Bootable(d.images.Of(d.flag.Other())))
  }

  /** What holds at every point of a run from a clean start. */
  ghost predicate SafeWhileRunning(booted: InstallSet, d: Durable) {
    && d.images.Of(booted) == Intact
    && (d.flag != booted ==> Bootable(d.images.Of(d.flag)))
    && Pending(d.disk) != Some(booted)
  }

  ghost predicate Safe(w: World) {
    TargetsOther(w) && SafeWhileRunning(w.booted, Durably(w))
  }

  /** What an install writes, if the scripts tell the flag. */
  function InstallTarget(w: World): InstallSet {
    if w.store.mem.upgrade.Some? then w.store.mem.upgrade.value else w.flag.Other()
  }

  /** What is durable can boot, and still could if the settings in memory were saved. */
  ghost predicate SafeNow(w: World) {
    && SafeToBoot(Durably(w))
    && (w.store.mem.upgrade == Some(w.flag) ==> Bootable(w.images.Of(w.flag.Other())))
  }

  /** An install may begin: it writes another set than the flag names, and no rollback to that set is pending.
      If there is nothing to write, the set it swaps to can boot as it is. */
  ghost predicate MayInstall(w: World)
    requires w.state.Install?
  {
    if w.state.package.Objects(InstallTarget(w)) == [] then Bootable(w.images.Of(w.flag.Other()))
    else InstallTarget(w) != w.flag && Pending(w.store.disk) != Some(w.flag)
  }

  lemma SafeIsSafeNow(w: World)
    requires Safe(w)
    ensures SafeNow(w)
  {
  }

  /** Nothing is written to an image any more, and both can boot. */
  lemma MarkAndSwapKeepsSafe(w: World, c: Choice, target: InstallSet, trail: seq<Durable>)
    requires w.state.Install? && SafeNow(w) && Bootable(w.images.Of(w.flag.Other()))
    requires forall d | d in trail :: SafeToBoot(d)
    ensures SafeNow(MarkAndSwap(w, c, target, trail).world)
    ensures forall d | d in MarkAndSwap(w, c, target, trail).trail :: SafeToBoot(d)
  {
    MarkAndSwapEffect(w, c, target, trail);
    MarkAndSwapTrail(w, c, target, trail);
    hide MarkAndSwap;
    assert forall image :: w.images.Of(image) in {w.images.Of(w.flag), w.images.Of(w.flag.Other())};
  }

  lemma ObjectsKeepSafe(w: World, c: Choice, target: InstallSet)
    requires w.state.Install? && SafeNow(w) && MayInstall(w) && target == InstallTarget(w)
    ensures var (w', ok, trail) := InstallObjects(w, c, target);
            && w'.state == w.state && SafeNow(w')
            && (forall d | d in trail :: SafeToBoot(d))
            && (ok ==> Bootable(w'.images.Of(w'.flag.Other())))
  {
    ObjectsTrail(w, c, target);
    OneOfTwo(target, w.flag);
    hide InstallObjects;
  }

  lemma InstallKeepsSafe(w: World, c: Choice)
    requires w.state.Install? && SafeNow(w) && MayInstall(w)
    ensures SafeNow(HandleInstall(w, c).world)
    ensures forall d | d in HandleInstall(w, c).trail :: SafeToBoot(d)
  {
    hide InstallObjects, MarkAndSwap, SafeToBoot;
    if Target(w, c).Some? {
      var target := Target(w, c).value;
      var (w', ok, trail) := InstallObjects(w, c, target);
      ObjectsKeepSafe(w, c, target);
      if ok {
        MarkAndSwapKeepsSafe(w', c, target, trail);
      }
    }
  }

  /** The condition is exact: otherwise power may fail where the device cannot boot. */
  lemma InstallIsSafeExactlyWhen(w: World)
    requires w.state.Install? && SafeNow(w)
    ensures (forall c: Choice, d | d in HandleInstall(w, c).trail :: SafeToBoot(d)) <==> MayInstall(w)
  {
    if MayInstall(w) {
      forall c: Choice, d | d in HandleInstall(w, c).trail
        ensures SafeToBoot(d)
      {
        InstallKeepsSafe(w, c);
      }
    } else {
      var c, d := UnsafeInstall(w);
      assert d in HandleInstall(w, c).trail && !SafeToBoot(d);
    }
  }

  lemma UnsafeInstall(w: World) returns (c: Choice, d: Durable)
    requires w.state.Install? && SafeNow(w) && !MayInstall(w)
    ensures d in HandleInstall(w, c).trail && !SafeToBoot(d)
    ensures c == NoChoice().(installs := 0)
  {
    var target := InstallTarget(w);
    c := NoChoice().(installs := 0);
    assert Target(w, c) == Some(target);
    ObjectsTrail(w, c, target);
    SameLength(w.state.package, target);
    OneOfTwo(target, w.flag);
    var (w', ok, trail) := InstallObjects(w, c, target);
    if w.state.package.Objects(target) == [] {
      d := Durably(MarkAndSwap(w', c, target, trail).world);
    } else {
      assert InstallOrder(w.state.package, target) != [];
      BeginsToWrite(w, c, target);
      d := trail[0];
    }
  }

  lemma BeginsToWrite(w: World, c: Choice, target: InstallSet)
    requires w.state.Install? && InstallOrder(w.state.package, target) != [] && c.installs == 0
    ensures InstallObjects(w, c, target).2 != [] && !InstallObjects(w, c, target).1
  {
  }

  /** Every install of the run begins when it may. */
  ghost predicate InstallsWhenItMay(env: Env, w: World, choices: seq<Choice>) {
    forall i: nat | i < |choices| && Installs(Run(env, w, choices[..i]), choices[i]) ::
      MayInstall(AtDispatch(Run(env, w, choices[..i]), choices[i]))
  }

  lemma InstalledWorld(w: World, c: Choice)
    requires Installs(w, c)
    ensures AtDispatch(w, c).state.Install?
  {
  }

  lemma QuietKeepsSafe(w: World, w': World, trail: seq<Durable>)
    requires SafeNow(w) && Quiet(w, w') && QuietTrail(w, trail)
    ensures SafeNow(w') && forall d | d in trail :: SafeToBoot(d)
  {
  }

  lemma StepKeepsSafe(env: Env, w: World, c: Choice)
    requires SafeNow(w) && (Installs(w, c) ==> MayInstall(AtDispatch(w, c)))
    ensures SafeNow(Step(env, w, c).world)
    ensures forall d | d in Step(env, w, c).trail :: SafeToBoot(d)
  {
    hide Step, AtDispatch, HandleInstall, MayInstall, Installs, SafeNow, SafeToBoot;
    if Installs(w, c) {
      StepInstalls(env, w, c);
      InstalledWorld(w, c);
      QuietKeepsSafe(w, AtDispatch(w, c), Drain(w.(token := false), c.pending).trail);
      InstallKeepsSafe(AtDispatch(w, c), c);
    } else {
      StepIsQuiet(env, w, c);
      QuietKeepsSafe(w, Step(env, w, c).world, Step(env, w, c).trail);
    }
  }

  /** In every run whose installs begin when they may, power can fail at any durable write. */
  lemma {:induction false} RunStaysSafe(env: Env, w: World, choices: seq<Choice>)
    requires SafeNow(w) && InstallsWhenItMay(env, w, choices)
    ensures SafeNow(Run(env, w, choices))
    ensures forall d | d in RunTrail(env, w, choices) :: SafeToBoot(d)
  {
    hide Step, AtDispatch, SafeToBoot, MayInstall, Installs;
    if choices != [] {
      var front, c := choices[..|choices| - 1], choices[|choices| - 1];
      assert forall i: nat | i <= |front| :: front[..i] == choices[..i];
      RunStaysSafe(env, w, front);
      assert choices[..|front|] == front;
      StepKeepsSafe(env, Run(env, w, front), c);
    }
  }

  // ---- After a clean start ----

  lemma MarkAndSwapStaysSafe(w: World, c: Choice, trail: seq<Durable>)
    requires w.state.Install? && Safe(w) && forall d | d in trail :: SafeWhileRunning(w.booted, d)
    requires Bootable(w.images.Of(w.booted.Other()))
    ensures var r := MarkAndSwap(w, c, w.booted.Other(), trail);
            && r.world.booted == w.booted && Safe(r.world)
            && forall d | d in r.trail :: SafeWhileRunning(w.booted, d)
  {
    MarkAndSwapEffect(w, c, w.booted.Other(), trail);
    MarkAndSwapTrail(w, c, w.booted.Other(), trail);
  }

  lemma InstallStaysSafe(w: World, c: Choice)
    requires w.state.Install? && Safe(w) && MayInstall(w)
    ensures Safe(HandleInstall(w, c).world) && HandleInstall(w, c).world.booted == w.booted
    ensures forall d | d in HandleInstall(w, c).trail :: SafeWhileRunning(w.booted, d)
  {
    if Target(w, c).Some? {
      var target := Target(w, c).value;
      var (w', ok, trail) := InstallObjects(w, c, target);
      ObjectsTrail(w, c, target);
      assert target == w.booted.Other() && Safe(w');
      if ok {
        MarkAndSwapStaysSafe(w', c, trail);
      }
    }
  }

  lemma StepStaysSafe(env: Env, w: World, c: Choice)
    requires Safe(w) && (Installs(w, c) ==> MayInstall(AtDispatch(w, c)))
    ensures Safe(Step(env, w, c).world) && Step(env, w, c).world.booted == w.booted
    ensures forall d | d in Step(env, w, c).trail :: SafeWhileRunning(w.booted, d)
  {
    hide Step, AtDispatch, HandleInstall, MayInstall, Installs, Bootable;
    if Installs(w, c) {
      StepInstalls(env, w, c);
      InstalledWorld(w, c);
      InstallStaysSafe(AtDispatch(w, c), c);
    } else {
      StepIsQuiet(env, w, c);
    }
  }

  /** After a clean start there is more: the running set stays as it booted, and is never the pending one. */
  lemma {:induction false} CleanRunStaysSafe(env: Env, w: World, choices: seq<Choice>)
    requires Safe(w) && InstallsWhenItMay(env, w, choices)
    ensures Safe(Run(env, w, choices)) && Run(env, w, choices).booted == w.booted
    ensures forall d | d in RunTrail(env, w, choices) :: SafeWhileRunning(w.booted, d)
  {
    if choices != [] {
      hide Step, AtDispatch, Safe, SafeWhileRunning, MayInstall, Installs;
      var front, c := choices[..|choices| - 1], choices[|choices| - 1];
      assert forall i: nat | i <= |front| :: front[..i] == choices[..i];
      CleanRunStaysSafe(env, w, front);
      assert choices[..|front|] == front;
      StepStaysSafe(env, Run(env, w, front), c);
    } else {
      assert SafeWhileRunning(w.booted, Durably(w));
    }
  }

  // ---- The life of a device ----

  /** One boot: how the set that boots is configured, how it starts, what the machine then does, and at which
      durable write power fails. */
  datatype BootChoice = BootChoice(env: Env, startup: StartupChoice, steps: seq<Choice>, cut: nat)

  function StartedBy(d: Durable, b: BootChoice): Started {
    HandleStartup(Boot(d, b.startup), b.startup)
  }

  function BootTrail(d: Durable, b: BootChoice): (trail: seq<Durable>)
    ensures trail != []
  {
    [Durably(Boot(d, b.startup))] + StartedBy(d, b).trail + RunTrail(b.env, StartedBy(d, b).world, b.steps)
  }

  function LeftBy(d: Durable, b: BootChoice): Durable {
    var trail := BootTrail(d, b);
    trail[if b.cut < |trail| then b.cut else |trail| - 1]
  }

  /** Whatever came of the startup, the machine runs, and installs when it may. */
  ghost predicate WellBehaved(d: Durable, b: BootChoice) {
    InstallsWhenItMay(b.env, StartedBy(d, b).world, b.steps)
  }

  function Life(d: Durable, boots: seq<BootChoice>): Durable {
    if boots == [] then d else LeftBy(Life(d, boots[..|boots| - 1]), boots[|boots| - 1])
  }

  ghost predicate WellBehavedLife(d: Durable, boots: seq<BootChoice>) {
    boots != [] ==>
      && WellBehavedLife(d, boots[..|boots| - 1])
      && WellBehaved(Life(d, boots[..|boots| - 1]), boots[|boots| - 1])
  }

  /** Every startup, however it ends and whether or not settings are stored, leaves a world that is safe. */
  lemma StartupStaysSafe(d: Durable, b: BootChoice)
    requires SafeToBoot(d)
    ensures SafeToBoot(Durably(Boot(d, b.startup)))
    ensures forall s | s in StartedBy(d, b).trail :: SafeToBoot(s)
    ensures SafeNow(StartedBy(d, b).world)
    ensures Stored(d, b.startup) && StartedBy(d, b).ending.Clean? ==> Safe(StartedBy(d, b).world)
  {
  }

  lemma BootStaysSafe(d: Durable, b: BootChoice)
    requires SafeToBoot(d) && WellBehaved(d, b)
    ensures forall s | s in BootTrail(d, b) :: SafeToBoot(s)
    ensures var w := StartedBy(d, b).world;
            StartedBy(d, b).ending.RolledBack? ==> w.flag == d.flag.Other() && Bootable(w.images.Of(w.flag))
  {
    StartupStaysSafe(d, b);
    hide Run, RunTrail;
    RunStaysSafe(b.env, StartedBy(d, b).world, b.steps);
  }

  /** For any number of boots, each configured in its own way and cut anywhere: the set that boots next is
      untouched since it last booted or completely installed, and so is the one a rollback would land on. */
  lemma {:induction false} LifelongCrashSafety(d: Durable, boots: seq<BootChoice>)
    requires SafeToBoot(d) && WellBehavedLife(d, boots)
    ensures SafeToBoot(Life(d, boots))
  {
    if boots != [] {
      var before := Life(d, boots[..|boots| - 1]);
      LifelongCrashSafety(d, boots[..|boots| - 1]);
      BootStaysSafe(before, boots[|boots| - 1]);
    }
  }
}
