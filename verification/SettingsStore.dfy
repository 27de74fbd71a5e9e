/**
 The settings the agent keeps across restarts, in memory and on disk
 (updatehub/src/runtime_settings.rs), and the boot flag (updatehub/src/firmware/installation_set.rs).
 */
module SettingsStore {
  import opened Packages
  import opened Wrappers

  /** `last` is a time in nanoseconds; `persistent` is itself part of what is stored. */
  datatype Settings = Settings(
    upgrade: Option<InstallSet>, applied: Option<string>, now: bool, last: int, retries: nat,
    server: Option<string>, persistent: bool)

  const DEFAULT_SETTINGS := Settings(None, None, false, 0, 0, None, false)

  /** What is in memory, and what the file would give if it were read again, if it parses. */
  datatype Store = Store(mem: Settings, disk: Option<Settings>)

  /** Saving writes the whole record, or skips it without complaint when not persistent. */
  function Save(s: Store, writes: bool): Store {
    if s.mem.persistent && writes then s.(disk := Some(s.mem)) else s
  }

  predicate Saves(s: Store, writes: bool) {
    s.mem.persistent ==> writes
  }

  /** A file that is absent, or does not parse and is moved away, gives the default settings. */
  function Loaded(disk: Option<Settings>, readOnly: bool): Store {
    var loaded := if disk.Some? then disk.value else DEFAULT_SETTINGS;
    Store(if readOnly then loaded else loaded.(persistent := true), disk)
  }

  function Reset(mem: Settings): Settings {
    mem.(upgrade := None, applied := None, now := true)
  }

  /** Once an upgrade is pending the set it names is the target, as the flag was already swapped. */
  function InactiveSet(s: Store, flag: InstallSet, scripts: bool): Option<InstallSet> {
    if s.mem.upgrade.Some? then s.mem.upgrade
    else if scripts then Some(flag.Other())
    else None
  }

  class BootFlag {
    var active: InstallSet

    constructor (active: InstallSet)
      ensures this.active == active
    {
      this.active := active;
    }

    method Inactive(scripts: bool) returns (inactive: Option<InstallSet>)
      ensures inactive == if scripts then Some(active.Other()) else None
    {
      if scripts {
        match active {
          case A => return Some(B);
          case B => return Some(A);
        }
      } else {
        return None;
      }
    }

    method SwapActive(swaps: bool) returns (ok: bool)
      modifies this
      ensures ok == swaps
      ensures active == if swaps then old(active).Other() else old(active)
    {
      var inactive := Inactive(swaps);
      ok := inactive.Some?;
      if ok {
        active := inactive.value;
      }
    }
  }

  class RuntimeSettings {
    var inner: Settings
    var stored: Option<Settings>

    ghost function View(): Store
      reads this
    {
      Store(inner, stored)
    }

    constructor Load(stored: Option<Settings>, readOnly: bool)
      ensures View() == Loaded(stored, readOnly)
    {
      var loaded := if stored.Some? then stored.value else DEFAULT_SETTINGS;
      this.stored := stored;
      inner := if readOnly then loaded else loaded.(persistent := true);
    }

    method WriteOut(writes: bool) returns (ok: bool)
      modifies this`stored
      ensures View() == Save(old(View()), writes) && ok == Saves(old(View()), writes)
    {
      if !inner.persistent {
        return true;
      }
      if writes {
        stored := Some(inner);
      }
      return writes;
    }

    method DisableForcePoll(writes: bool) returns (ok: bool)
      modifies this
      ensures var changed := old(View()).(mem := old(inner).(now := false));
              View() == Save(changed, writes) && ok == Saves(changed, writes)
    {
      inner := inner.(now := false);
      ok := WriteOut(writes);
    }

    method SetLastPolling(last: int, writes: bool) returns (ok: bool)
      modifies this
      ensures var changed := old(View()).(mem := old(inner).(last := last));
              View() == Save(changed, writes) && ok == Saves(changed, writes)
    {
      inner := inner.(last := last);
      ok := WriteOut(writes);
    }

    method SetAppliedPackageUid(uid: string, writes: bool) returns (ok: bool)
      modifies this
      ensures var changed := old(View()).(mem := old(inner).(applied := Some(uid)));
              View() == Save(changed, writes) && ok == Saves(changed, writes)
    {
      inner := inner.(applied := Some(uid));
      ok := WriteOut(writes);
    }

    method SetUpgradingTo(target: InstallSet, writes: bool) returns (ok: bool)
      modifies this
      ensures var changed := old(View()).(mem := old(inner).(upgrade := Some(target)));
              View() == Save(changed, writes) && ok == Saves(changed, writes)
    {
      inner := inner.(upgrade := Some(target));
      ok := WriteOut(writes);
    }

    method ResetInstallationSettings(writes: bool) returns (ok: bool)
      modifies this
      ensures var changed := old(View()).(mem := Reset(old(inner)));
              View() == Save(changed, writes) && ok == Saves(changed, writes)
    {
      inner := inner.(upgrade := None, applied := None);
      // A probe as soon as possible finishes the update cycle.
      inner := inner.(now := true);
      ok := WriteOut(writes);
    }

    method GetInactiveInstallationSet(flag: BootFlag, scripts: bool) returns (target: Option<InstallSet>)
      ensures target == InactiveSet(View(), flag.active, scripts)
    {
      if inner.upgrade.Some? {
        return inner.upgrade;
      }
      target := flag.Inactive(scripts);
    }

    method SetInner(changed: Settings)
      modifies this`inner
      ensures inner == changed
    {
      inner := changed;
    }
  }

  // ---- Settings across a restart ----

  /** What was saved is loaded again, all of it. */
  lemma SavedIsLoadedAgain(s: Store, writes: bool, readOnly: bool)
    requires s.mem.persistent && writes
    ensures Loaded(Save(s, writes).disk, readOnly) == Store(s.mem, Some(s.mem))
  {
  }

  /** A save fails exactly if it is to be written and cannot be, and then the file stays as it was; settings that
      are not persistent are not written. Memory is never changed by a save. */
  lemma SaveFailsExactlyWhen(s: Store, writes: bool)
    ensures !Saves(s, writes) <==> s.mem.persistent && !writes
    ensures Save(s, writes) == Store(s.mem, if s.mem.persistent && writes then Some(s.mem) else s.disk)
  {
  }

  /** Without a file nothing is pending or applied and nothing was polled; on writable storage settings become
      persistent, and nothing else about them changes. */
  lemma LoadingIs(stored: Settings, readOnly: bool)
    ensures Loaded(Some(stored), readOnly).mem == stored.(persistent := stored.persistent || !readOnly)
    ensures var mem := Loaded(None, readOnly).mem;
            && mem.upgrade.None? && mem.applied.None? && !mem.now && mem.retries == 0 && mem.last == 0
            && mem.server.None? && mem.persistent == !readOnly
    ensures Loaded(Some(stored), readOnly).disk == Some(stored) && Loaded(None, readOnly).disk == None
  {
  }

  /** The inactive set is the pending one, or else the one the flag does not name. */
  lemma InactiveSetIs(s: Store, scripts: bool)
    ensures s.mem.upgrade.Some? ==> forall flag :: InactiveSet(s, flag, scripts) == s.mem.upgrade
    ensures s.mem.upgrade.None? && scripts ==>
              InactiveSet(s, A, scripts) == Some(B) && InactiveSet(s, B, scripts) == Some(A)
    ensures s.mem.upgrade.None? && !scripts ==> forall flag :: InactiveSet(s, flag, scripts) == None
  {
  }
}
