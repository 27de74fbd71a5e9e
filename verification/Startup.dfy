/**
 What the agent does when the device boots (updatehub/src/states/mod.rs): a freshly installed set is
 validated and confirmed, or rolled back.
 */
module Startup {
  import opened Machine
  import opened Packages
  import Runs
  import opened SettingsStore
  import opened Wrappers

  /** The outcome of everything uncertain while starting: scripts, callbacks and the save. */
  datatype StartupChoice = StartupChoice(
    readOnly: bool, scripts: bool, validate: Callback, confirms: bool, swaps: bool, rollback: bool,
    reboots: bool, writes: bool, dir: Directory)

  /** `RolledBack` asked for a reboot; `Aborted` is an error, which is logged and no more. */
  datatype Ending = Clean | RolledBack | Aborted

  datatype Started = Started(world: World, ending: Ending, trail: seq<Durable>)

  /** The boot loader boots the flagged set, and the agent loads its settings. */
  function Boot(d: Durable, c: StartupChoice): World {
    World(d.flag, d.flag, Loaded(d.disk, c.readOnly), d.images.With(d.flag, Intact), [], c.dir, EntryPoint, false, false)
  }

  function HandleStartup(w: World, c: StartupChoice): Started {
    if w.store.mem.upgrade.None? then Started(w, Clean, [])
    else if !c.scripts then Started(w, Aborted, [])
    else if w.store.mem.upgrade != Some(w.flag) then Confirm(w, c)
    else
      match c.validate
      case Failed => Started(w, Aborted, [])
      case Continue => Confirm(w, c)
      case Cancel =>
        if !c.swaps then Started(w, Aborted, [])
        else
          var w' := w.(flag := w.flag.Other());
          Started(w', if c.rollback && c.reboots then RolledBack else Aborted, [Durably(w')])
  }

  /** The booted set is confirmed, and the settings of the update are reset. */
  function Confirm(w: World, c: StartupChoice): Started {
    if !c.confirms then Started(w, Aborted, [])
    else
      var w' := WithSettings(w, Reset(w.store.mem), c.writes);
      Started(w', if SettingsSave(w, Reset(w.store.mem), c.writes) then Clean else Aborted, [Durably(w')])
  }

  /** The upgrade the stored settings name as pending. */
  function Pending(disk: Option<Settings>): Option<InstallSet> {
    if disk.Some? then disk.value.upgrade else None
  }

  /** Saves reach the disk: storage is writable, or the stored settings say they are persistent. */
  predicate Stored(d: Durable, c: StartupChoice) {
    Loaded(d.disk, c.readOnly).mem.persistent
  }

  /** Two boots without an error settle any stored upgrade: the second one is clean, nothing is pending any
      more, and the flag moved, once, only if the flagged set was the pending one and failed validation. */
  lemma TwoBootsSettle(d: Durable, first: StartupChoice, second: StartupChoice)
    requires Stored(d, first) && !HandleStartup(Boot(d, first), first).ending.Aborted?
    requires var d' := Durably(HandleStartup(Boot(d, first), first).world);
             Stored(d', second) && !HandleStartup(Boot(d', second), second).ending.Aborted?
    ensures var one := HandleStartup(Boot(d, first), first);
            var two := HandleStartup(Boot(Durably(one.world), second), second);
            && two.ending.Clean?
            && Pending(two.world.store.disk).None? && two.world.store.mem.upgrade.None?
            && two.world.flag == one.world.flag
            && one.world.flag ==
               if Pending(d.disk) == Some(d.flag) && first.validate.Cancel? then d.flag.Other() else d.flag
  {
  }

  /** Confirming an upgrade forgets it, on disk too, and the machine then probes before anything else. */
  lemma ConfirmedBootProbesFirst(env: Env, d: Durable, c: StartupChoice, choice: Choice)
    requires Stored(d, c) && Pending(d.disk).Some? && HandleStartup(Boot(d, c), c).ending.Clean?
    requires choice.pending == []
    ensures var w := HandleStartup(Boot(d, c), c).world;
            && w.store.disk == Some(w.store.mem)
            && w.store.mem.upgrade.None? && w.store.mem.applied.None?
            && Step(env, w, choice).world.state == (if choice.writes then Probe else Error)
  {
    var w := HandleStartup(Boot(d, c), c).world;
    assert AtDispatch(w, choice) == w;
  }

  /** Startup leaves the running set shielded exactly when it was not pending, or was validated and confirmed. */
  lemma StartupShieldsExactlyWhen(d: Durable, c: StartupChoice)
    ensures Runs.TargetsOther(HandleStartup(Boot(d, c), c).world) <==>
            (Pending(d.disk) == Some(d.flag) ==> c.scripts && c.validate.Continue? && c.confirms)
  {
    var w := Boot(d, c);
    assert w.store.mem.upgrade == Pending(d.disk);
    if Pending(d.disk).Some? {
      match Pending(d.disk).value {
        case A =>
        case B =>
      }
    }
  }

  /** How a startup ends: clean without an upgrade, or once the booted set is confirmed and that is saved, after it
      was validated if it is the upgrade; rolled back if the upgrade booted, was refused, and all of the rollback
      succeeded; in an error otherwise. */
  lemma StartupEndsExactlyWhen(w: World, c: StartupChoice)
    ensures var ending, upgrade := HandleStartup(w, c).ending, w.store.mem.upgrade;
            && (ending.Clean? <==>
                  upgrade.None? || (c.scripts && c.confirms && (w.store.mem.persistent ==> c.writes)
                                    && (upgrade == Some(w.flag) ==> c.validate.Continue?)))
            && (ending.RolledBack? <==>
                  upgrade == Some(w.flag) && c.scripts && c.validate.Cancel? && c.swaps && c.rollback && c.reboots)
  {
  }

  /** What it changes: the flag, exactly on a rollback that swaps; and the settings, once the booted set is
      confirmed: both marks are gone and a probe is forced. */
  lemma StartupChanges(w: World, c: StartupChoice)
    ensures var w', mem, upgrade := HandleStartup(w, c).world, w.store.mem, w.store.mem.upgrade;
            var refused := upgrade == Some(w.flag) && c.scripts && c.validate.Cancel?;
            var confirmed := upgrade.Some? && c.scripts && c.confirms && (upgrade == Some(w.flag) ==> c.validate.Continue?);
            var reset := mem.(upgrade := None, applied := None, now := true);
            && w'.flag == (if refused && c.swaps then w.flag.Other() else w.flag)
            && w'.store.mem == (if confirmed then reset else mem)
            && w'.store.disk == (if confirmed && mem.persistent && c.writes then Some(reset) else w.store.disk)
            && w' == w.(flag := w'.flag, store := w'.store)
  {
  }

  /** The boot loader boots the set the flag names, which is from then on what it is when it runs. */
  lemma BootIs(d: Durable, c: StartupChoice)
    ensures var w := Boot(d, c);
            && w.booted == w.flag == d.flag && w.store.disk == d.disk && w.state.EntryPoint?
            && w.images.Of(d.flag) == Intact && w.images.Of(d.flag.Other()) == d.images.Of(d.flag.Other())
            && w.writes == [] && !w.token && !w.blocked
  {
  }
}
