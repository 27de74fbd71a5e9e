/**
 The order of the marks of an install and its swap: a flag that names the other set is on disk as the
 pending upgrade, so that a fresh set is validated when it boots.
 */
module WriteAhead {
  import opened ExampleRuns
  import opened Machine
  import opened Packages
  import opened Runs
  import opened Startup
  import opened Wrappers

  // ---- Marks before the flag ----

  /** A flag that names the other set is stored along with that set as the pending upgrade. */
  ghost predicate WrittenAhead(booted: InstallSet, d: Durable) {
    d.flag != booted ==> Pending(d.disk) == Some(d.flag)
  }

  ghost predicate Ahead(w: World) {
    TargetsOther(w) && w.store.mem.persistent && WrittenAhead(w.booted, Durably(w))
  }

  /** What is durable while an install is marked: the images and the flag as they were, or the swapped flag
      with the target stored as pending. */
  lemma MarkAndSwapTrail(w: World, c: Choice, target: InstallSet, trail: seq<Durable>)
    requires w.state.Install?
    ensures forall d | d in MarkAndSwap(w, c, target, trail).trail && d !in trail ::
              && d.images == w.images
              && (d.disk == w.store.disk || Pending(d.disk) in {w.store.mem.upgrade, Some(target)})
              && (d.flag == w.flag || d.flag == w.flag.Other())
              && (d.flag != w.flag && w.store.mem.persistent ==> Pending(d.disk) == Some(target))
    ensures var w' := MarkAndSwap(w, c, target, trail).world;
            && (w'.store.disk == w.store.disk || Pending(w'.store.disk) in {w.store.mem.upgrade, Some(target)})
            && (w'.flag != w.flag && w.store.mem.persistent ==> Pending(w'.store.disk) == Some(target))
  {
  }

  lemma ObjectsTrail(w: World, c: Choice, target: InstallSet)
    requires w.state.Install?
    ensures forall d | d in InstallObjects(w, c, target).2 ::
              d == Durable(w.flag, w.store.disk, w.images.With(target, Torn))
    ensures var objects := w.state.package.Objects(target);
            && InstallObjects(w, c, target).0.images ==
               (if objects == [] then w.images
                else w.images.With(target, if InstallObjects(w, c, target).1 then Installed(w.state.package.uid) else Torn))
            && (objects == [] ==> InstallObjects(w, c, target).2 == [])
  {
    SameLength(w.state.package, target);
  }

  lemma SameLength(package: Package, target: InstallSet)
    ensures |InstallOrder(package, target)| == |package.Objects(target)|
  {
  }

  lemma MarkAndSwapStaysAhead(w: World, c: Choice, trail: seq<Durable>)
    requires w.state.Install? && Ahead(w) && forall d | d in trail :: WrittenAhead(w.booted, d)
    ensures var r := MarkAndSwap(w, c, w.booted.Other(), trail);
            && r.world.booted == w.booted && Ahead(r.world)
            && forall d | d in r.trail :: WrittenAhead(w.booted, d)
  {
    MarkAndSwapEffect(w, c, w.booted.Other(), trail);
    MarkAndSwapTrail(w, c, w.booted.Other(), trail);
  }

  lemma InstallStaysAhead(w: World, c: Choice)
    requires w.state.Install? && Ahead(w)
    ensures Ahead(HandleInstall(w, c).world) && HandleInstall(w, c).world.booted == w.booted
    ensures forall d | d in HandleInstall(w, c).trail :: WrittenAhead(w.booted, d)
  {
    if Target(w, c).Some? {
      var target := Target(w, c).value;
      var (w', ok, trail) := InstallObjects(w, c, target);
      ObjectsTrail(w, c, target);
      assert target == w.booted.Other() && Ahead(w');
      MarkAndSwapStaysAhead(w', c, trail);
    }
  }

  lemma StepStaysAhead(env: Env, w: World, c: Choice)
    requires Ahead(w)
    ensures Ahead(Step(env, w, c).world) && Step(env, w, c).world.booted == w.booted
    ensures forall d | d in Step(env, w, c).trail :: WrittenAhead(w.booted, d)
  {
    hide Step, AtDispatch, HandleInstall;
    if Installs(w, c) {
      StepInstalls(env, w, c);
      InstallStaysAhead(AtDispatch(w, c), c);
    } else {
      StepIsQuiet(env, w, c);
    }
  }

  /** With stored settings, at every point of a run where power may fail, a flag that names the other set
      is stored along with that set as the pending upgrade. */
  lemma {:induction false} FlagIsWrittenLast(env: Env, w: World, choices: seq<Choice>)
    requires Ahead(w)
    ensures Ahead(Run(env, w, choices)) && Run(env, w, choices).booted == w.booted
    ensures forall d | d in RunTrail(env, w, choices) :: WrittenAhead(w.booted, d)
  {
    if choices != [] {
      hide Step, Ahead, WrittenAhead;
      FlagIsWrittenLast(env, w, choices[..|choices| - 1]);
      StepStaysAhead(env, Run(env, w, choices[..|choices| - 1]), choices[|choices| - 1]);
    } else {
      assert WrittenAhead(w.booted, Durably(w));
    }
  }

  /** So a set that boots because an install swapped the flag is validated before anything is reset. */
  lemma FreshInstallIsValidated(booted: InstallSet, d: Durable, c: StartupChoice)
    requires WrittenAhead(booted, d) && d.flag != booted
    ensures HandleStartup(Boot(d, c), c).ending.Clean? ==> c.validate.Continue?
    ensures c.scripts && c.swaps && c.rollback && c.reboots && c.validate.Cancel? ==>
              HandleStartup(Boot(d, c), c).ending.RolledBack? && HandleStartup(Boot(d, c), c).world.flag == booted
  {
  }

  /** A set that boots is only confirmed after it was validated, exactly if it is on disk as the pending upgrade. */
  lemma ConfirmedAfterValidationExactlyWhen(d: Durable)
    ensures (forall c: StartupChoice :: HandleStartup(Boot(d, c), c).ending.Clean? ==> c.validate.Continue?)
            <==> Pending(d.disk) == Some(d.flag)
  {
    if Pending(d.disk) != Some(d.flag) {
      var c := StartupChoice(true, true, Cancel, true, true, true, true, true, map[]);
      assert HandleStartup(Boot(d, c), c).ending.Clean? && !c.validate.Continue?;
    }
  }

  // ---- When the marks come first ----

  /** The start is written ahead, and stays so: settings are saved and shield the running set, or nothing is
      saved and the disk names the other set already. */
  ghost predicate StaysAhead(w: World) {
    && WrittenAhead(w.booted, Durably(w))
    && if w.store.mem.persistent then TargetsOther(w) else Pending(w.store.disk) == Some(w.booted.Other())
  }

  /** The condition is exact: from any other start, an install that completes leaves a flag that is not on disk
      as the pending upgrade. */
  lemma FlagIsWrittenLastExactlyWhen(w: World)
    requires JustStarted(w)
    ensures (forall env, choices, d | d in RunTrail(env, w, choices) :: WrittenAhead(w.booted, d)) <==> StaysAhead(w)
  {
    if StaysAhead(w) {
      forall env, choices, d | d in RunTrail(env, w, choices)
        ensures WrittenAhead(w.booted, d)
      {
        if w.store.mem.persistent {
          FlagIsWrittenLast(env, w, choices);
        } else {
          UnsavedIsKept(env, w, choices);
          OneOfTwo(d.flag, w.booted);
        }
      }
    } else {
      var choices, d := NotAhead(w);
      assert d in RunTrail(ExampleEnv(), w, choices) && !WrittenAhead(w.booted, d);
    }
  }

  lemma StepIsUnsaved(env: Env, w: World, c: Choice)
    requires !w.store.mem.persistent
    ensures var w' := Step(env, w, c).world;
            w'.booted == w.booted && w'.store.disk == w.store.disk && !w'.store.mem.persistent
    ensures forall d | d in Step(env, w, c).trail :: d.disk == w.store.disk
  {
    hide Step, AtDispatch, HandleInstall;
    if Installs(w, c) {
      StepInstalls(env, w, c);
      InstallIsUnsaved(AtDispatch(w, c), c);
    } else {
      StepIsQuiet(env, w, c);
    }
  }

  lemma InstallIsUnsaved(w: World, c: Choice)
    requires w.state.Install? && !w.store.mem.persistent
    ensures var w' := HandleInstall(w, c).world;
            w'.booted == w.booted && w'.store.disk == w.store.disk && !w'.store.mem.persistent
    ensures forall d | d in HandleInstall(w, c).trail :: d.disk == w.store.disk
  {
    hide InstallOrder, InstallObjects;
    if Target(w, c).Some? {
      var (w', ok, trail) := InstallObjects(w, c, Target(w, c).value);
      ObjectsTrail(w, c, Target(w, c).value);
    }
  }

  lemma {:induction false} UnsavedIsKept(env: Env, w: World, choices: seq<Choice>)
    requires !w.store.mem.persistent
    ensures var w' := Run(env, w, choices);
            w'.booted == w.booted && w'.store.disk == w.store.disk && !w'.store.mem.persistent
    ensures forall d | d in RunTrail(env, w, choices) :: d.disk == w.store.disk
  {
    hide Step;
    if choices != [] {
      UnsavedIsKept(env, w, choices[..|choices| - 1]);
      StepIsUnsaved(env, Run(env, w, choices[..|choices| - 1]), choices[|choices| - 1]);
    }
  }

  /** A local install that completes, from a start that does not stay ahead. */
  lemma NotAhead(w: World) returns (choices: seq<Choice>, d: Durable)
    requires JustStarted(w) && !StaysAhead(w)
    ensures d in RunTrail(ExampleEnv(), w, choices) && !WrittenAhead(w.booted, d)
  {
    choices := [];
    d := Durably(w);
    if WrittenAhead(w.booted, d) {
      var uid := FreshUid(w);
      LocalInstallBegins(w, [], uid);
      choices := [] + [Prepare(uid)] + [NoChoice()];
      var at := Run(ExampleEnv(), w, choices);
      assert at == w.(state := Install(ExamplePackage(uid)), token := false, dir := map[]);
      hide Run, RunTrail;
      var marked, swapped := MarksOfInstall(at, uid);
      InstallsAlone(ExampleEnv(), at, NoChoice());
      StepInstalls(ExampleEnv(), at, NoChoice());
      OneMoreChoice(ExampleEnv(), w, choices, NoChoice());
      choices := choices + [NoChoice()];
      OneOfTwo(w.flag, w.booted);
      d := if w.flag == w.booted then swapped else marked;
      if w.store.mem.upgrade.Some? {
        OneOfTwo(w.store.mem.upgrade.value, w.booted);
      }
    }
  }

  /** What is on disk after the first mark and after the swap of an install that completes. */
  lemma MarksOfInstall(w: World, uid: string) returns (marked: Durable, swapped: Durable)
    requires w.state == Install(ExamplePackage(uid)) && !w.token
    ensures marked in HandleInstall(w.(token := false), NoChoice()).trail && marked.flag == w.flag
    ensures swapped in HandleInstall(w.(token := false), NoChoice()).trail && swapped.flag == w.flag.Other()
    ensures if !w.store.mem.persistent then marked.disk == swapped.disk == w.store.disk
            else
              && Pending(marked.disk) == w.store.mem.upgrade
              && Pending(swapped.disk) == if w.store.mem.upgrade.Some? then w.store.mem.upgrade else Some(w.flag.Other())
  {
    hide InstallOrder, InstallObjects;
    var c := NoChoice();
    var target := Target(w, c).value;
    SameLength(w.state.package, target);
    var (w', ok, trail) := InstallObjects(w, c, target);
    var r := MarkAndSwap(w', c, target, trail);
    marked, swapped := r.trail[|trail|], r.trail[|trail| + 2];
  }
}
