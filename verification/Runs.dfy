/**
 What every run of the state machine keeps: which set is written, what an install must have passed
 before, and in which order its marks reach the disk.
 */
module Runs {
  import opened Backoff
  import opened Machine
  import opened Packages
  import opened SettingsStore
  import opened Sorting
  import opened Wrappers

  // ---- Steps that do not install ----

  /** The stored settings are what they were, or a save of ones with the pending upgrade and the applied package
      of `w`. */
  ghost predicate DiskFrom(disk: Option<Settings>, w: World) {
    || disk == w.store.disk
    || (w.store.mem.persistent && disk.Some?
        && disk.value.upgrade == w.store.mem.upgrade && disk.value.applied == w.store.mem.applied)
  }

  /** Nothing an update depends on changed between `w` and `w'`. */
  ghost predicate Quiet(w: World, w': World) {
    && w'.booted == w.booted && w'.flag == w.flag && w'.images == w.images && w'.writes == w.writes
    && w'.store.mem.upgrade == w.store.mem.upgrade
    && w'.store.mem.applied == w.store.mem.applied
    && w'.store.mem.persistent == w.store.mem.persistent
    && DiskFrom(w'.store.disk, w)
  }

  ghost predicate QuietTrail(w: World, trail: seq<Durable>) {
    forall d | d in trail :: d.flag == w.flag && d.images == w.images && DiskFrom(d.disk, w)
  }

  lemma QuietComposes(a: World, b: World, c: World)
    requires Quiet(a, b) && Quiet(b, c)
    ensures Quiet(a, c)
  {
  }

  lemma QuietTrailComposes(a: World, b: World, trail: seq<Durable>)
    requires Quiet(a, b) && QuietTrail(b, trail)
    ensures QuietTrail(a, trail)
  {
  }

  /** Saving settings that keep the pending upgrade, the applied package and persistency. */
  lemma SavingIsQuiet(w: World, mem: Settings, writes: bool, state: State)
    requires mem.upgrade == w.store.mem.upgrade && mem.applied == w.store.mem.applied
    requires mem.persistent == w.store.mem.persistent
    ensures Quiet(w, WithSettings(w, mem, writes).(state := state))
    ensures QuietTrail(w, [Durably(WithSettings(w, mem, writes))])
  {
  }

  lemma RequestIsQuiet(w: World, r: Request)
    ensures Quiet(w, HandleRequest(w, r).world) && QuietTrail(w, HandleRequest(w, r).trail)
  {
    match r.message
    case Info =>
    case ProbeServer(server) =>
      if w.state.IsPreemptive() {
        var asked := if server.Some? then w.(store := w.store.(mem := w.store.mem.(server := server))) else w;
        ProbeIsQuiet(asked, r);
        QuietComposes(w, asked, ProbeOnRequest(asked, r).world);
        QuietTrailComposes(w, asked, ProbeOnRequest(asked, r).trail);
      }
    case AbortDownload =>
    case LocalInstall(file) =>
    case RemoteInstall(url) =>
  }

  lemma ProbeIsQuiet(w: World, r: Request)
    ensures Quiet(w, ProbeOnRequest(w, r).world) && QuietTrail(w, ProbeOnRequest(w, r).trail)
  {
    match r.answer
    case UrlError =>
    case Unreachable =>
    case ExtraPoll(seconds) =>
    case NoUpdate => PolledOnRequestIsQuiet(w, r, Unavailable, EntryPoint);
    case Update(package, sign) => PolledOnRequestIsQuiet(w, r, Available, Validation(package, sign, true));
  }

  lemma PolledOnRequestIsQuiet(w: World, r: Request, reply: ProbeReply, next: State)
    ensures Quiet(w, PolledOnRequest(w, r, reply, next).world) && QuietTrail(w, PolledOnRequest(w, r, reply, next).trail)
  {
    SavingIsQuiet(Post(w), w.store.mem.(last := r.now), r.writes, next);
  }

  lemma {:induction false} DrainIsQuiet(w: World, requests: seq<Request>)
    ensures Quiet(w, Drain(w, requests).world) && QuietTrail(w, Drain(w, requests).trail)
  {
    if requests != [] {
      var before := Drain(w, requests[..|requests| - 1]);
      DrainIsQuiet(w, requests[..|requests| - 1]);
      if !before.world.blocked {
        var h := HandleRequest(before.world, requests[|requests| - 1]);
        RequestIsQuiet(before.world, requests[|requests| - 1]);
        QuietComposes(w, before.world, h.world);
        QuietTrailComposes(w, before.world, h.trail);
      }
    }
  }

  lemma EntryPointIsQuiet(env: Env, w: World, c: Choice)
    ensures Quiet(w, HandleEntryPoint(env, w, c).world) && QuietTrail(w, HandleEntryPoint(env, w, c).trail)
    ensures HandleEntryPoint(env, w, c).world.blocked == w.blocked
  {
    SavingIsQuiet(w, w.store.mem.(now := false), c.writes, Probe);
  }

  lemma PolledIsQuiet(w: World, c: Choice, next: State)
    ensures Quiet(w, Polled(w, c, next).world) && QuietTrail(w, Polled(w, c, next).trail)
    ensures Polled(w, c, next).world.blocked == w.blocked && Polled(w, c, next).world.state in {next, Error}
  {
    SavingIsQuiet(w, w.store.mem.(retries := 0, last := c.now), c.writes, next);
  }

  lemma ProbeHandlerIsQuiet(env: Env, w: World, c: Choice)
    ensures Quiet(w, HandleProbe(env, w, c).world) && QuietTrail(w, HandleProbe(env, w, c).trail)
    ensures HandleProbe(env, w, c).world.blocked == w.blocked && !HandleProbe(env, w, c).world.state.Install?
  {
    hide WithSettings, SettingsSave;
    match c.answer
    case UrlError =>
    case Unreachable =>
    case NoUpdate => PolledIsQuiet(w, c, EntryPoint);
    case ExtraPoll(seconds) =>
    case Update(package, sign) => PolledIsQuiet(w, c, Validation(package, sign, true));
  }

  lemma SkippedProbeIsQuiet(w: World, c: Choice)
    ensures Quiet(w, SkipProbe(w, c).world) && QuietTrail(w, SkipProbe(w, c).trail)
    ensures SkipProbe(w, c).world.blocked == w.blocked && SkipProbe(w, c).world.state.EntryPoint?
  {
    SavingIsQuiet(w, w.store.mem.(last := c.now), c.writes, EntryPoint);
  }

  lemma ValidationIsQuiet(env: Env, w: World, c: Choice)
    requires w.state.Validation?
    ensures Quiet(w, HandleValidation(env, w, c).world) && HandleValidation(env, w, c).trail == []
    ensures HandleValidation(env, w, c).world.blocked == w.blocked
  {
  }

  lemma DownloadIsQuiet(w: World, c: Choice)
    requires w.state.IsHandlingDownload()
    ensures w.state.Download? ==> Quiet(w, HandleDownload(w, c).world) && QuietTrail(w, HandleDownload(w, c).trail)
    ensures w.state.DirectDownload? ==>
              Quiet(w, HandleDirectDownload(w, c).world) && QuietTrail(w, HandleDirectDownload(w, c).trail)
  {
    DrainIsQuiet(w, UntilReplaced(w, c.during));
  }

  lemma DispatchIsQuiet(env: Env, w: World, c: Choice)
    requires !(w.state.Install? && c.callback.Continue?)
    ensures Quiet(w, Dispatch(env, w, c).world) && QuietTrail(w, Dispatch(env, w, c).trail)
  {
    hide HandleEntryPoint, HandleValidation, HandleDownload, HandleDirectDownload, HandleProbe, SkipProbe;
    match w.state
    case Park =>
    case EntryPoint => EntryPointIsQuiet(env, w, c);
    case Poll =>
    case Validation(_, _, _) => ValidationIsQuiet(env, w, c);
    case DirectDownload(_) => DownloadIsQuiet(w, c);
    case Probe =>
      ProbeHandlerIsQuiet(env, w, c);
      SkippedProbeIsQuiet(w, c);
    case PrepareLocalInstall(_) =>
    case Error =>
    case Download(_, _) => DownloadIsQuiet(w, c);
    case Install(_) =>
    case Reboot(_) =>
  }

  /** The step runs the install handler. */
  predicate Installs(w: World, c: Choice) {
    && !w.blocked && !AtDispatch(w, c).blocked
    && AtDispatch(w, c).state.Install? && c.callback.Continue?
  }

  lemma StepIsQuiet(env: Env, w: World, c: Choice)
    requires !Installs(w, c)
    ensures Quiet(w, Step(env, w, c).world) && QuietTrail(w, Step(env, w, c).trail)
  {
    if !w.blocked {
      DrainIsQuiet(w.(token := false), c.pending);
      var at := AtDispatch(w, c);
      if !at.blocked {
        var handled := Dispatch(env, at, c);
        DispatchIsQuiet(env, at, c);
        QuietComposes(w, at, handled.world);
        QuietTrailComposes(w, at, handled.trail);
        if !handled.transition.Immediate? {
          DrainIsQuiet(handled.world, c.waiting);
          QuietComposes(w, handled.world, Wait(handled.world, c).world);
          QuietTrailComposes(w, handled.world, Wait(handled.world, c).trail);
        }
      }
    }
  }

  lemma StepInstalls(env: Env, w: World, c: Choice)
    requires Installs(w, c)
    ensures Quiet(w, AtDispatch(w, c))
    ensures var drained := Drain(w.(token := false), c.pending);
            && QuietTrail(w, drained.trail)
            && Step(env, w, c) == Outcome(HandleInstall(AtDispatch(w, c), c).world, Immediate,
                                          drained.trail + HandleInstall(AtDispatch(w, c), c).trail)
  {
    DrainIsQuiet(w.(token := false), c.pending);
  }

  // ---- What an install writes ----

  function WritesOf(target: InstallSet, objects: seq<Object>): seq<Write> {
    if objects == [] then []
    else WritesOf(target, objects[..|objects| - 1]) + [Write(target, objects[|objects| - 1])]
  }

  lemma {:induction false} WritesAreLogged(w: World, target: InstallSet, objects: seq<Object>)
    ensures WriteObjects(w, target, objects).0.writes == w.writes + WritesOf(target, objects)
  {
    if objects != [] {
      WritesAreLogged(w, target, objects[..|objects| - 1]);
    }
  }

  /** The objects an install begins to write: all of them, or those up to the one that fails. */
  function Begun(c: Choice, objects: seq<Object>): seq<Object> {
    if c.installs < |objects| then objects[..c.installs + 1] else objects
  }

  /** Every object of the target is installed once, in order, up to one that fails; and a failure leaves
      the applied package, the pending upgrade, what is stored and the flag as they were. */
  lemma InstallWritesInOrder(w: World, c: Choice)
    requires w.state.Install? && Target(w, c).Some?
    ensures var w' := HandleInstall(w, c).world;
            var objects := InstallOrder(w.state.package, Target(w, c).value);
            && w'.booted == w.booted
            && w'.writes == w.writes + WritesOf(Target(w, c).value, Begun(c, objects))
            && (c.installs < |objects| ==> w'.store == w.store && w'.flag == w.flag && w'.state.Error?)
  {
    var target := Target(w, c).value;
    var objects := InstallOrder(w.state.package, target);
    WritesAreLogged(w, target, Begun(c, objects));
    var (w', ok, trail) := InstallObjects(w, c, target);
    assert w'.writes == WriteObjects(w, target, Begun(c, objects)).0.writes;
    MarkAndSwapEffect(w', c, target, trail);
  }

  function OfSize(size: nat, objects: seq<Object>): seq<Object> {
    if objects == [] then []
    else (if objects[0].size == size then [objects[0]] else []) + OfSize(size, objects[1..])
  }

  lemma {:induction false} TiesAreOfSize(o: Object, objects: seq<Object>)
    ensures Ties(LargerFirst(), o, objects) == OfSize(o.size, objects)
  {
    if objects != [] {
      TiesAreOfSize(o, objects[1..]);
    }
  }

  /** The order of installation: each object of the package as often as it is listed, sizes never growing,
      and objects of one size in the order of the package. */
  lemma InstallOrderIsStable(package: Package, target: InstallSet, o: Object)
    ensures var order := InstallOrder(package, target);
            && multiset(order) == multiset(package.Objects(target))
            && (forall i, j | 0 <= i < j < |order| :: order[i].size >= order[j].size)
            && OfSize(o.size, order) == OfSize(o.size, package.Objects(target))
  {
    SortSorts(LargerFirst(), package.Objects(target));
    SortIsStable(LargerFirst(), o, package.Objects(target));
    TiesAreOfSize(o, InstallOrder(package, target));
    TiesAreOfSize(o, package.Objects(target));
  }

  // ---- The running set is never written ----

  /** No upgrade is pending and the flag names the booted set, or the other set is pending. */
  predicate TargetsOther(w: World) {
    || (w.store.mem.upgrade.None? && w.flag == w.booted)
    || w.store.mem.upgrade == Some(w.booted.Other())
  }

  /** Nothing was written to the booted set since it booted. */
  ghost predicate RunningSetUntouched(w: World) {
    forall i | 0 <= i < |w.writes| :: w.writes[i].target != w.booted
  }

  lemma {:induction false} WritingElsewhere(w: World, target: InstallSet, objects: seq<Object>)
    requires target != w.booted && RunningSetUntouched(w)
    ensures RunningSetUntouched(WriteObjects(w, target, objects).0)
  {
    if objects != [] {
      WritingElsewhere(w, target, objects[..|objects| - 1]);
    }
  }

  /** What the end of an install may change, and in which order it becomes durable. */
  lemma MarkAndSwapEffect(w: World, c: Choice, target: InstallSet, trail: seq<Durable>)
    requires w.state.Install?
    ensures var w' := MarkAndSwap(w, c, target, trail).world;
            && w'.booted == w.booted && w'.images == w.images && w'.writes == w.writes
            && w'.blocked == w.blocked && w'.state in {Error, Reboot(w.state.package)}
            && w'.store.mem.persistent == w.store.mem.persistent
            && w'.store.mem.upgrade in {w.store.mem.upgrade, Some(target)}
            && w'.flag in {w.flag, w.flag.Other()}
            && (w'.flag != w.flag ==> w'.store.mem.upgrade == Some(target))
  {
  }

  lemma InstallKeepsRunningSet(w: World, c: Choice)
    requires w.state.Install? && TargetsOther(w) && RunningSetUntouched(w)
    ensures var w' := HandleInstall(w, c).world;
            && TargetsOther(w') && RunningSetUntouched(w')
            && w'.booted == w.booted && w'.images.Of(w.booted) == w.images.Of(w.booted)
  {
    hide InstallOrder, MarkAndSwap;
    if Target(w, c).Some? {
      var target := Target(w, c).value;
      assert target == w.booted.Other();
      var (w', ok, trail) := InstallObjects(w, c, target);
      WritingElsewhere(w, target, Begun(c, InstallOrder(w.state.package, target)));
      MarkAndSwapEffect(w', c, target, trail);
    }
  }

  lemma {:induction false} RunKeepsRunningSet(env: Env, w: World, choices: seq<Choice>)
    requires TargetsOther(w) && RunningSetUntouched(w)
    ensures TargetsOther(Run(env, w, choices)) && RunningSetUntouched(Run(env, w, choices))
    ensures Run(env, w, choices).booted == w.booted
    ensures Run(env, w, choices).images.Of(w.booted) == w.images.Of(w.booted)
  {
    if choices != [] {
      var before, c := Run(env, w, choices[..|choices| - 1]), choices[|choices| - 1];
      RunKeepsRunningSet(env, w, choices[..|choices| - 1]);
      if Installs(before, c) {
        StepInstalls(env, before, c);
        InstallKeepsRunningSet(AtDispatch(before, c), c);
      } else {
        StepIsQuiet(env, before, c);
      }
    }
  }

  lemma NothingPending(w: World, c: Choice)
    requires c.pending == []
    ensures AtDispatch(w, c) == w.(token := false)
  {
  }

  lemma InstallsAlone(env: Env, w: World, c: Choice)
    requires !w.blocked && w.state.Install? && c.pending == [] && c.callback.Continue?
    ensures Installs(w, c) && Step(env, w, c).world == HandleInstall(w.(token := false), c).world
  {
    hide HandleInstall;
    NothingPending(w, c);
    StepInstalls(env, w, c);
  }

  /** The machine as it is started: nothing was requested or written yet. */
  predicate JustStarted(w: World) {
    w.state.EntryPoint? && !w.token && !w.blocked && w.writes == []
  }

  function NoChoice(): Choice {
    Choice([], [], [], Continue, Unreachable, 0, true, true, true, true, {}, 1, map[], true, None, true)
  }

  /** An environment and a local install that write the booted set, when it is not shielded. */
  lemma UnshieldedSetIsWritten(w: World) returns (env: Env, choices: seq<Choice>)
    requires JustStarted(w) && !TargetsOther(w)
    ensures !RunningSetUntouched(Run(env, w, choices))
  {
    var uid := if w.store.mem.applied.Some? then w.store.mem.applied.value + "+" else "";
    var payload := Object("object", "digest", 0, "raw-delta", true);
    var package := Package(uid, Any, [payload], [payload]);
    assert w.store.mem.applied.Some? ==> |uid| == |w.store.mem.applied.value| + 1;
    env := Env(false, {}, "", {"raw-delta"}, 60 * NANOS_PER_SECOND, true);
    var request := Request(LocalInstall("package"), Unreachable, 0, true, true);
    var prepare := NoChoice().(pending := [request], prepared := Some((package, Signature(""))));
    choices := [prepare, NoChoice(), NoChoice()];

    var prepared := LocalInstallIsPrepared(env, w, prepare, request, package);
    var accepted := LocalInstallIsAccepted(env, prepared, package, payload);
    InstallWrites(env, accepted, package, payload);
    var installed := Step(env, accepted, NoChoice()).world;

    assert choices[..2] == [prepare, NoChoice()] && choices[..2][..1] == [prepare] && [prepare][..0] == [];
    assert Run(env, w, []) == w;
    assert Run(env, w, [prepare]) == prepared;
    assert Run(env, w, choices[..2]) == accepted;
    assert Run(env, w, choices) == installed;
    assert installed.writes[0].target == installed.booted;
  }

  lemma LocalInstallIsPrepared(env: Env, w: World, c: Choice, r: Request, package: Package) returns (prepared: World)
    requires w.state.EntryPoint? && !w.token && !w.blocked && r.message.LocalInstall? && r.listening
    requires c == NoChoice().(pending := [r], prepared := Some((package, Signature(""))))
    ensures prepared == Step(env, w, c).world
    ensures prepared == w.(state := Validation(package, Some(Signature("")), false), token := true, dir := map[])
  {
    prepared := Step(env, w, c).world;
    assert [r][..0] == [];
    assert Drain(w, []) == Drained(w, [], []);
    assert AtDispatch(w, c) == HandleRequest(w, r).world;
  }

  lemma LocalInstallIsAccepted(env: Env, w: World, package: Package, payload: Object) returns (accepted: World)
    requires !w.blocked && w.state == Validation(package, Some(Signature("")), false)
    requires !env.hasKey && payload.mode in env.modes && payload.remote && w.store.mem.applied != Some(package.uid)
    requires package == Package(package.uid, Any, [payload], [payload])
    ensures accepted == Step(env, w, NoChoice()).world
    ensures accepted == w.(state := Install(package), token := false)
  {
    accepted := Step(env, w, NoChoice()).world;
    var at := AtDispatch(w, NoChoice());
    assert at == w.(token := false);
    assert forall target: InstallSet :: package.Objects(target) == [payload];
    assert HandleValidation(env, at, NoChoice()) == Go(at, Install(package), []);
  }

  lemma OnlyObject(package: Package, payload: Object, target: InstallSet)
    requires package == Package(package.uid, Any, [payload], [payload])
    ensures InstallOrder(package, target) == [payload]
    ensures WritesOf(target, [payload]) == [Write(target, payload)]
    ensures Begun(NoChoice(), [payload]) == [payload]
  {
    assert package.Objects(target) == [payload] && [payload][..0] == [];
  }

  lemma UnshieldedTarget(w: World)
    requires !TargetsOther(w)
    ensures Target(w.(token := false), NoChoice()) == Some(w.booted)
  {
    OneOfTwo(if w.store.mem.upgrade.Some? then w.store.mem.upgrade.value else w.flag, w.booted);
  }

  lemma OneOfTwo(a: InstallSet, b: InstallSet)
    ensures a == b || a == b.Other()
    ensures a.Other() == b <==> a != b
  {
    match a
    case A =>
    case B =>
  }

  lemma InstallWrites(env: Env, w: World, package: Package, payload: Object)
    requires !w.blocked && w.state == Install(package) && w.writes == []
    requires package == Package(package.uid, Any, [payload], [payload]) && !TargetsOther(w)
    ensures Step(env, w, NoChoice()).world.writes == [Write(w.booted, payload)]
    ensures Step(env, w, NoChoice()).world.booted == w.booted
  {
    InstallsAlone(env, w, NoChoice());
    UnshieldedTarget(w);
    hide *;
    InstallWritesInOrder(w.(token := false), NoChoice());
    OnlyObject(package, payload, w.booted);
  }

  /** Whatever the environment and the choices, no install writes the booted set: exactly when the
      settings and the flag shield it as the machine starts. */
  lemma RunningSetIsShieldedExactlyWhen(w: World)
    requires JustStarted(w)
    ensures (forall env, choices :: RunningSetUntouched(Run(env, w, choices))) <==> TargetsOther(w)
  {
    if TargetsOther(w) {
      forall env, choices
        ensures RunningSetUntouched(Run(env, w, choices))
      {
        RunKeepsRunningSet(env, w, choices);
      }
    } else {
      var env, choices := UnshieldedSetIsWritten(w);
    }
  }
}
