/**
 What comes of each state, case by case, and of an update on its way from the probe to the reboot. Here the
 cases are spelled out, so that what a state leads to can be read without the handlers.
 */
module Outcomes {
  import opened CrashSafety
  import opened InstallGate
  import opened Machine
  import opened Packages
  import opened Requests
  import opened Runs
  import opened Wrappers
  import opened WriteAhead

  // ---- Single states ----

  /** A probe that runs and can save: an update is validated and is yet to be downloaded, no update ends the cycle,
      an extra poll is waited for, and a server that is out of reach is tried again. */
  lemma ProbeLeadsTo(env: Env, w: World, c: Choice)
    requires w.state.Probe? && c.callback.Continue? && (w.store.mem.persistent ==> c.writes)
    ensures var r := Dispatch(env, w, c);
            match c.answer
            case Update(package, sign) => r.world.state == Validation(package, sign, true) && r.transition == Immediate
            case NoUpdate => r.world.state == EntryPoint && r.transition == Immediate
            case ExtraPoll(seconds) => r.world.state == Probe && r.transition == Delayed(seconds * 1_000_000_000)
            case Unreachable => r.world.state == Probe && r.transition.Delayed?
            case UrlError => r.world.state == Error && r.transition == Immediate
  {
  }

  /** The entry point: a forced probe is made once; otherwise the custom server is forgotten and polling, if it is
      enabled, goes on. */
  lemma EntryPointLeadsTo(env: Env, w: World, c: Choice)
    requires w.state.EntryPoint? && (w.store.mem.persistent ==> c.writes)
    ensures var w' := Dispatch(env, w, c).world;
            if w.store.mem.now then
              w'.state == Probe && w'.store.mem == w.store.mem.(now := false)
            else
              && w'.state == (if env.polling then Poll else Park) && w'.store.mem == w.store.mem.(server := None)
              && w'.store.disk == w.store.disk
  {
  }

  lemma DownloadLeadsTo(w: World, c: Choice)
    requires !w.blocked && w.state.Download?
    ensures var aborted := exists r :: r in c.during && r.message.AbortDownload? && r.listening;
            && HandleDownload(w, c).transition == Immediate
            && HandleDownload(w, c).world == w.(dir := c.dir, state :=
                 if aborted then EntryPoint
                 else if c.fetched then Validation(w.state.package, w.state.sign, false)
                 else Error)
  {
    OnlyAbortsEndADownload(w, c.during);
    assert forall r :: IsAbort(r) <==> r.message.AbortDownload? && r.listening;
    hide Drain, UntilReplaced, IsAbort;
  }

  lemma DirectDownloadLeadsTo(w: World, c: Choice)
    requires !w.blocked && w.state.DirectDownload?
    ensures var aborted := exists r :: r in c.during && r.message.AbortDownload? && r.listening;
            && HandleDirectDownload(w, c).transition == Immediate
            && HandleDirectDownload(w, c).world == w.(dir := c.dir, state :=
                 if aborted then EntryPoint else if c.fetched then PrepareLocalInstall("fetched_pkg") else Error)
  {
    OnlyAbortsEndADownload(w, c.during);
    assert forall r :: IsAbort(r) <==> r.message.AbortDownload? && r.listening;
    hide Drain, UntilReplaced, IsAbort;
  }

  /** What goes wrong ends in the error state, and leaves flag and images of the running system alone. */
  lemma FailuresEndInError(env: Env, w: World, c: Choice)
    requires !w.blocked
    requires var cannotSave := w.store.mem.persistent && !c.writes;
             var unheard := forall r | r in c.during :: !(r.message.AbortDownload? && r.listening);
             match w.state
             case EntryPoint => w.store.mem.now && cannotSave
             case Probe =>
               c.callback.Continue? && (c.answer.UrlError? || (cannotSave && (c.answer.NoUpdate? || c.answer.Update?)))
             case Download(_, _) => c.callback.Failed? || (c.callback.Continue? && unheard && !c.fetched)
             case DirectDownload(_) => unheard && !c.fetched
             case PrepareLocalInstall(_) => c.callback.Continue? && c.prepared.None?
             case Reboot(_) => c.callback.Failed? || (c.callback.Continue? && !c.reboots)
             case _ => false
    ensures var r := Dispatch(env, w, c);
            r.world.state == Error && r.transition == Immediate && r.world.flag == w.flag && r.world.images == w.images
  {
    hide HandleInstall, HandleValidation, HandleDownload, HandleDirectDownload;
    if w.state.Download? {
      DownloadLeadsTo(w, c);
    } else if w.state.DirectDownload? {
      DirectDownloadLeadsTo(w, c);
    }
  }

  /** So does an install: without a target, when an object fails, when a mark cannot be saved, or when the swap
      fails. The flag is then as it was; and it is swapped if none of this happens. */
  lemma InstallSwapsExactlyWhen(env: Env, w: World, c: Choice)
    requires w.state.Install? && c.callback.Continue?
    ensures var r, mem := Dispatch(env, w, c), w.store.mem;
            var swaps := && (mem.upgrade.Some? || c.scripts)
                         && c.installs >= |w.state.package.Objects(InstallTarget(w))|
                         && (mem.persistent ==> c.writes && c.writesAgain) && c.swaps;
            && r.transition == Immediate
            && (if swaps then r.world.state == Reboot(w.state.package) else r.world.state == Error)
            && r.world.flag == (if swaps then w.flag.Other() else w.flag)
            && (swaps ==>
                  r.world.store.mem == mem.(applied := Some(w.state.package.uid), upgrade := Some(InstallTarget(w))))
  {
    hide InstallOrder, InstallObjects, MarkAndSwap;
    if Target(w, c).Some? {
      var target := Target(w, c).value;
      SameLength(w.state.package, target);
      var (w', ok, trail) := InstallObjects(w, c, target);
      MarksLeadTo(w', c, target, trail);
    }
  }

  lemma MarksLeadTo(w: World, c: Choice, target: InstallSet, trail: seq<Durable>)
    requires w.state.Install?
    ensures var r, mem := MarkAndSwap(w, c, target, trail), w.store.mem;
            var swaps := (mem.persistent ==> c.writes && c.writesAgain) && c.swaps;
            && r.transition == Immediate
            && r.world.state == (if swaps then Reboot(w.state.package) else Error)
            && r.world.flag == (if swaps then w.flag.Other() else w.flag)
            && (swaps ==> r.world.store.mem == mem.(applied := Some(w.state.package.uid), upgrade := Some(target)))
  {
  }

  /** A callback that fails in a reported state is an error before anything is done. */
  lemma FailedCallbackIsAnError(env: Env, w: World, c: Choice)
    requires (w.state.Download? || w.state.Install? || w.state.Reboot?) && c.callback.Failed?
    ensures Dispatch(env, w, c) == Outcome(w.(state := Error), Immediate, [])
  {
  }

  /** A callback that cancels leads to the entry point before anything is done, but for a probe, whose time is
      stored. So does one that fails, in the states that are not reported; and an error, always. */
  lemma CancelledEndsAtTheEntryPoint(env: Env, w: World, c: Choice)
    requires match w.state
             case Probe => !c.callback.Continue?
             case PrepareLocalInstall(_) => !c.callback.Continue?
             case Error => true
             case Download(_, _) => c.callback.Cancel?
             case Install(_) => c.callback.Cancel?
             case Reboot(_) => c.callback.Cancel?
             case _ => false
    ensures var r := Dispatch(env, w, c);
            && r.transition == Immediate
            && if w.state.Probe? then r.world == w.(state := EntryPoint, store := r.world.store)
                                      && r.world.store.mem == w.store.mem.(last := c.now)
               else r == Outcome(w.(state := EntryPoint), Immediate, [])
  {
  }

  /** What was fetched is validated next: an update that is now downloaded, or the local package it is. */
  lemma FetchedIsValidated(env: Env, w: World, c: Choice)
    requires !w.blocked && forall r | r in c.during :: !(r.message.AbortDownload? && r.listening)
    ensures w.state.Download? && c.callback.Continue? && c.fetched ==>
              Dispatch(env, w, c).world == w.(state := Validation(w.state.package, w.state.sign, false), dir := c.dir)
    ensures w.state.DirectDownload? && c.fetched ==>
              Dispatch(env, w, c).world == w.(state := PrepareLocalInstall("fetched_pkg"), dir := c.dir)
    ensures w.state.PrepareLocalInstall? && c.callback.Continue? && c.prepared.Some? ==>
              Dispatch(env, w, c).world ==
              w.(state := Validation(c.prepared.value.0, Some(c.prepared.value.1), false), dir := c.dir)
  {
    hide HandleDownload, HandleDirectDownload;
    if w.state.Download? {
      DownloadLeadsTo(w, c);
    } else if w.state.DirectDownload? {
      DirectDownloadLeadsTo(w, c);
    }
  }

  /** A client that listens aborts a download, whether or not it was done by then. */
  lemma AbortEndsTheDownload(env: Env, w: World, c: Choice)
    requires !w.blocked && exists r :: r in c.during && r.message.AbortDownload? && r.listening
    requires w.state.DirectDownload? || (w.state.Download? && c.callback.Continue?)
    ensures Dispatch(env, w, c) == Outcome(w.(state := EntryPoint, dir := c.dir), Immediate, Dispatch(env, w, c).trail)
  {
    hide HandleDownload, HandleDirectDownload;
    if w.state.Download? {
      DownloadLeadsTo(w, c);
    } else {
      DirectDownloadLeadsTo(w, c);
    }
  }

  // ---- The set of a package ----

  /** Validation in terms of what is in the package: the objects for set A are its first list, those for set B its
      second; they are looked at for the pending set, or else for the one the flag does not name. */
  lemma ValidationLooksAtTheTarget(
    env: Env, w: World, c: Choice, uid: string, hardware: Hardware, a: seq<Object>, b: seq<Object>,
    sign: Option<Signature>, requireDownload: bool)
    requires w.state == Validation(Package(uid, hardware, a, b), sign, requireDownload)
    requires w.store.mem.upgrade.Some? || c.scripts
    ensures var target := if w.store.mem.upgrade.Some? then w.store.mem.upgrade.value else if w.flag == A then B else A;
            var objects := if target == A then a else b;
            var suits := && (env.hasKey ==> sign.Some? && (sign.value, w.state.package) in env.verified)
                         && (hardware == Any || env.hardware in hardware.names)
                         && (forall o | o in objects :: o.mode in env.modes && o !in c.unmet);
            var ready := forall o | o in objects && !o.remote ::
                           && o.sha256sum in w.dir && w.dir[o.sha256sum].size >= o.size
                           && w.dir[o.sha256sum].readable && w.dir[o.sha256sum].digest == o.sha256sum;
            HandleValidation(env, w, c).world.state ==
              if !suits then Error
              else if w.store.mem.applied == Some(uid) then EntryPoint
              else if requireDownload then Download(w.state.package, sign)
              else if ready then Install(w.state.package)
              else Error
  {
    ValidationAcceptsExactlyWhen(env, w, c);
    var target := if w.store.mem.upgrade.Some? then w.store.mem.upgrade.value else if w.flag == A then B else A;
    assert Target(w, c) == Some(target);
    var objects := if target == A then a else b;
    assert w.state.package.Objects(target) == objects;
    forall o
      ensures StatusOf(o, w.dir) == Ok(Ready) <==>
              && o.sha256sum in w.dir && w.dir[o.sha256sum].size >= o.size
              && w.dir[o.sha256sum].readable && w.dir[o.sha256sum].digest == o.sha256sum
    {
      StatusIs(o, w.dir);
    }
    hide HandleValidation, StatusOf, Target;
  }

  function ObjectsOf(writes: seq<Write>): seq<Object> {
    if writes == [] then [] else ObjectsOf(writes[..|writes| - 1]) + [writes[|writes| - 1].written]
  }

  lemma ObjectsOfOneMore(writes: seq<Write>, write: Write)
    ensures ObjectsOf(writes + [write]) == ObjectsOf(writes) + [write.written]
  {
    assert (writes + [write])[..|writes|] == writes;
  }

  lemma {:induction false} WritesHold(target: InstallSet, objects: seq<Object>)
    ensures ObjectsOf(WritesOf(target, objects)) == objects
    ensures forall write | write in WritesOf(target, objects) :: write.target == target
  {
    hide ObjectsOf;
    if objects == [] {
      assert ObjectsOf([]) == [] by { NoObjects(); }
    } else {
      var before, last := objects[..|objects| - 1], objects[|objects| - 1];
      WritesHold(target, before);
      ObjectsOfOneMore(WritesOf(target, before), Write(target, last));
    }
  }

  lemma NoObjects()
    ensures ObjectsOf([]) == []
  {
  }

  /** An install that completes writes to its target each object of the list for that set, once and no others;
      larger ones first, and those of one size as listed. */
  lemma InstallWritesTheTarget(
    w: World, c: Choice, uid: string, hardware: Hardware, a: seq<Object>, b: seq<Object>, size: nat)
    requires w.state == Install(Package(uid, hardware, a, b)) && (w.store.mem.upgrade.Some? || c.scripts)
    requires c.installs >= |a| && c.installs >= |b|
    ensures var target := if w.store.mem.upgrade.Some? then w.store.mem.upgrade.value else if w.flag == A then B else A;
            var objects := if target == A then a else b;
            var w' := HandleInstall(w, c).world;
            && w.writes <= w'.writes
            && var written := w'.writes[|w.writes|..];
            && (forall write | write in written :: write.target == target)
            && multiset(ObjectsOf(written)) == multiset(objects)
            && (forall i, j | 0 <= i < j < |ObjectsOf(written)| :: ObjectsOf(written)[i].size >= ObjectsOf(written)[j].size)
            && OfSize(size, ObjectsOf(written)) == OfSize(size, objects)
  {
    var target := if w.store.mem.upgrade.Some? then w.store.mem.upgrade.value else if w.flag == A then B else A;
    assert Target(w, c) == Some(target);
    var order := InstallOrder(w.state.package, target);
    SameLength(w.state.package, target);
    InstallWritesInOrder(w, c);
    WritesHold(target, order);
    var any := Object("", "", size, "", false);
    InstallOrderIsStable(w.state.package, target, any);
    hide HandleInstall, InstallOrder;
    assert HandleInstall(w, c).world.writes[|w.writes|..] == WritesOf(target, order);
  }

  // ---- An update on its way ----

  /** Nothing comes in, nothing is cancelled, and what is to be saved can be. */
  predicate Smooth(c: Choice) {
    && c.pending == [] && c.during == [] && c.callback.Continue?
    && c.writes && c.writesAgain && c.scripts && c.swaps
  }

  lemma SmoothStep(env: Env, w: World, c: Choice)
    requires Smooth(c) && !w.token && !w.blocked && Dispatch(env, w, c).transition.Immediate?
    ensures Step(env, w, c).world == Dispatch(env, w, c).world
  {
    hide Dispatch;
    NothingPending(w, c);
  }

  /** An update the server offers, that suits the device and is not the applied one, is being downloaded two steps
      after the probe. */
  lemma OfferedUpdateIsDownloaded(env: Env, w: World, probe: Choice, validate: Choice)
    requires w.state.Probe? && !w.token && !w.blocked && Smooth(probe) && Smooth(validate) && probe.answer.Update?
    requires var offered := w.(state := Validation(probe.answer.package, probe.answer.sign, true));
             Suits(env, offered, validate, InstallTarget(w)) && w.store.mem.applied != Some(probe.answer.package.uid)
    ensures var w' := Step(env, Step(env, w, probe).world, validate).world;
            && w'.state == Download(probe.answer.package, probe.answer.sign)
            && w'.store.mem == w.store.mem.(retries := 0, last := probe.now)
            && w' == w.(state := w'.state, store := w'.store) && !w'.token && !w'.blocked
  {
    hide Step, Suits;
    SmoothStep(env, w, probe);
    var offered := Step(env, w, probe).world;
    SuitsAlike(env, w.(state := Validation(probe.answer.package, probe.answer.sign, true)), offered, validate);
    ValidationAcceptsExactlyWhen(env, offered, validate);
    assert Target(offered, validate) == Some(InstallTarget(w));
    hide HandleValidation;
    SmoothStep(env, offered, validate);
  }

  /** Whether a package suits depends on the state alone, given its target. */
  lemma SuitsAlike(env: Env, w: World, w': World, c: Choice)
    requires w.state.Validation? && w'.state == w.state
    ensures forall target :: Suits(env, w, c, target) == Suits(env, w', c, target)
  {
  }

  /** Once it is downloaded and all it needs is ready, three more steps install it: the target holds the package,
      which is applied and pending, and the flag names the other set. Then the device reboots. */
  lemma DownloadedUpdateIsInstalled(env: Env, w: World, fetch: Choice, validate: Choice, install: Choice)
    requires w.state.Download? && !w.token && !w.blocked && Smooth(fetch) && Smooth(validate) && Smooth(install)
    requires fetch.fetched && install.installs >= |w.state.package.Objects(InstallTarget(w))|
    requires var fetched := w.(state := Validation(w.state.package, w.state.sign, false), dir := fetch.dir);
             Passes(env, fetched, validate, InstallTarget(w))
    ensures var w' := Step(env, Step(env, Step(env, w, fetch).world, validate).world, install).world;
            && w'.state == Reboot(w.state.package)
            && w'.store.mem == w.store.mem.(applied := Some(w.state.package.uid), upgrade := Some(InstallTarget(w)))
            && w'.store.disk == (if w.store.mem.persistent then Some(w'.store.mem) else w.store.disk)
            && w'.flag == w.flag.Other()
            && (w.state.package.Objects(InstallTarget(w)) != [] ==>
                  w'.images == w.images.With(InstallTarget(w), Installed(w.state.package.uid)))
  {
    hide Step, Passes, InstallOrder;
    FetchedIsValidated(env, w, fetch);
    var fetched := w.(state := Validation(w.state.package, w.state.sign, false), dir := fetch.dir);
    DownloadEnds(w, fetch);
    SmoothStep(env, w, fetch);
    assert Step(env, w, fetch).world == fetched;
    ValidationAcceptsExactlyWhen(env, fetched, validate);
    assert Target(fetched, validate) == Some(InstallTarget(w));
    var accepted := fetched.(state := Install(w.state.package));
    assert Dispatch(env, fetched, validate) == Go(fetched, Install(w.state.package), []);
    SmoothStep(env, fetched, validate);
    InstallLeaves(env, accepted, install);
    SmoothStep(env, accepted, install);
  }

  lemma InstallLeaves(env: Env, w: World, c: Choice)
    requires w.state.Install? && Smooth(c) && c.installs >= |w.state.package.Objects(InstallTarget(w))|
    ensures var r := Dispatch(env, w, c); var w' := r.world;
            && r.transition.Immediate? && w'.state == Reboot(w.state.package)
            && w'.store.mem == w.store.mem.(applied := Some(w.state.package.uid), upgrade := Some(InstallTarget(w)))
            && w'.store.disk == (if w.store.mem.persistent then Some(w'.store.mem) else w.store.disk)
            && w'.flag == w.flag.Other()
            && (w.state.package.Objects(InstallTarget(w)) != [] ==>
                  w'.images == w.images.With(InstallTarget(w), Installed(w.state.package.uid)))
  {
    hide InstallOrder, InstallObjects;
    var target := InstallTarget(w);
    assert Target(w, c) == Some(target);
    SameLength(w.state.package, target);
    ObjectsTrail(w, c, target);
    var (w', ok, trail) := InstallObjects(w, c, target);
    assert ok;
    MarkAndSwapEffect(w', c, target, trail);
  }
}
