/**
 The running agent: the objects its handlers update, with the main loop, the request loops and the
 startup handler, each doing to them exactly what `Machine` and `Startup` say.
 */
module Agent {
  import opened Backoff
  import opened CrashSafety
  import InstallGate
  import opened Machine
  import opened Packages
  import opened Requests
  import opened SettingsStore
  import opened Startup
  import opened Wrappers

  /** The storage of the device: its two installation sets and its download directory. */
  class Device {
    var images: Images
    ghost var writes: seq<Write>
    var dir: Directory

    constructor (images: Images, dir: Directory)
      ensures this.images == images && this.dir == dir && writes == []
    {
      this.images, this.dir, writes := images, dir, [];
    }

    method Begin(target: InstallSet, o: Object)
      modifies this
      ensures images == old(images).With(target, Torn) && writes == old(writes) + [Write(target, o)] && dir == old(dir)
    {
      images := images.With(target, Torn);
      writes := writes + [Write(target, o)];
    }

    method Complete(target: InstallSet, uid: string)
      modifies this`images
      ensures images == old(images).With(target, Installed(uid))
    {
      images := images.With(target, Installed(uid));
    }

    method Replace(dir: Directory)
      modifies this`dir
      ensures this.dir == dir
    {
      this.dir := dir;
    }
  }

  class StateMachine {
    const env: Env
    const booted: InstallSet
    const settings: RuntimeSettings
    const flag: BootFlag
    const device: Device
    var state: State
    var token: bool
    var blocked: bool
    /** What was durable after each durable write since boot. */
    ghost var trail: seq<Durable>

    ghost function View(): World
      reads this, settings, flag, device
    {
      World(booted, flag.active, settings.View(), device.images, device.writes, device.dir, state, token, blocked)
    }

    constructor (env: Env, booted: InstallSet, settings: RuntimeSettings, flag: BootFlag, device: Device)
      ensures this.env == env && this.booted == booted && this.settings == settings
      ensures this.flag == flag && this.device == device
      ensures state == EntryPoint && !token && !blocked && trail == []
    {
      this.env, this.booted, this.settings, this.flag, this.device := env, booted, settings, flag, device;
      state, token, blocked, trail := EntryPoint, false, false, [];
    }

    ghost method Note()
      modifies this`trail
      ensures trail == old(trail) + [Durably(View())]
    {
      trail := trail + [Durably(View())];
    }

    // ---- Starting up ----

    method HandleStartupCallbacks(c: StartupChoice) returns (ending: Ending)
      modifies this`trail, settings, flag
      ensures var r := HandleStartup(old(View()), c);
              View() == r.world && ending == r.ending && trail == old(trail) + r.trail
    {
      if settings.inner.upgrade.None? {
        return Clean;
      }
      if !c.scripts {
        return Aborted;
      }
      if settings.inner.upgrade.value == flag.active {
        match c.validate {
          case Failed => return Aborted;
          case Continue =>
          case Cancel =>
            var swapped := flag.SwapActive(c.swaps);
            if !swapped {
              return Aborted;
            }
            Note();
            return if c.rollback && c.reboots then RolledBack else Aborted;
        }
      }
      ending := ConfirmActive(c);
    }

    /** The booted set is confirmed, and the settings of the update are reset. */
    method ConfirmActive(c: StartupChoice) returns (ending: Ending)
      modifies this`trail, settings
      ensures var r := Confirm(old(View()), c);
              View() == r.world && ending == r.ending && trail == old(trail) + r.trail
    {
      if !c.confirms {
        return Aborted;
      }
      var ok := settings.ResetInstallationSettings(c.writes);
      Note();
      return if ok then Clean else Aborted;
    }

    // ---- Handlers: the next state and the transition; an error is the error state ----

    method HandleEntryPoint(c: Choice) returns (next: State, transition: Transition)
      modifies this`trail, settings
      ensures var r := Machine.HandleEntryPoint(env, old(View()), c);
              r.world == View().(state := next) && r.transition == transition && trail == old(trail) + r.trail
    {
      if settings.inner.now {
        var ok := settings.DisableForcePoll(c.writes);
        Note();
        return if ok then Probe else Error, Immediate;
      }
      settings.SetInner(settings.inner.(server := None));
      return if env.polling then Poll else Park, Immediate;
    }

    method HandlePoll(c: Choice) returns (next: State, transition: Transition)
      ensures var r := Machine.HandlePoll(env, View(), c);
              r.world == View().(state := next) && r.transition == transition && r.trail == []
    {
      var interval := env.interval;
      var delay := interval - (c.now - settings.inner.last);
      transition := if delay > interval || WholeSeconds(delay) < 0 then Immediate else Delayed(delay);
      next := Probe;
    }

    method HandleProbe(c: Choice) returns (next: State, transition: Transition)
      modifies this`trail, settings
      ensures var r := Machine.HandleProbe(env, old(View()), c);
              r.world == View().(state := next) && r.transition == transition && trail == old(trail) + r.trail
    {
      if c.answer.UrlError? {
        return Error, Immediate;
      }
      if c.answer.Unreachable? {
        settings.SetInner(settings.inner.(retries := settings.inner.retries + 1));
        return Probe, Delayed(RetryDelay(settings.inner.retries, env.interval) * NANOS_PER_SECOND);
      }
      settings.SetInner(settings.inner.(retries := 0));
      if c.answer.ExtraPoll? {
        return Probe, Delayed(c.answer.seconds * NANOS_PER_SECOND);
      }
      var ok := settings.SetLastPolling(c.now, c.writes);
      Note();
      if !ok {
        return Error, Immediate;
      }
      return if c.answer.NoUpdate? then EntryPoint else Validation(c.answer.package, c.answer.sign, true), Immediate;
    }

    /** A cancelled probe still refreshes the last poll, so that the polling interval is respected. */
    method CancelProbe(c: Choice) returns (next: State, transition: Transition)
      modifies this`trail, settings
      ensures var r := SkipProbe(old(View()), c);
              r.world == View().(state := next) && r.transition == transition && trail == old(trail) + r.trail
    {
      var ok := settings.SetLastPolling(c.now, c.writes);
      Note();
      return EntryPoint, Immediate;
    }

    method HandleValidation(c: Choice) returns (next: State, transition: Transition)
      requires state.Validation?
      ensures var r := Machine.HandleValidation(env, View(), c);
              r.world == View().(state := next) && r.transition == transition && r.trail == []
    {
      transition := Immediate;
      var package := state.package;
      if env.hasKey {
        if state.sign.None? || (state.sign.value, package) !in env.verified {
          return Error, Immediate;
        }
      }
      var target := settings.GetInactiveInstallationSet(flag, c.scripts);
      if target.None? || !package.CompatibleWith(env.hardware) {
        return Error, Immediate;
      }
      var objects := package.Objects(target.value);
      if !ModesSupported(env, objects) {
        return Error, Immediate;
      }
      for i := 0 to |objects|
        invariant forall j | 0 <= j < i :: objects[j] !in c.unmet
      {
        if objects[i] in c.unmet {
          return Error, Immediate;
        }
      }
      if settings.inner.applied == Some(package.uid) {
        return EntryPoint, Immediate;
      }
      if state.requireDownload {
        return Download(package, state.sign), Immediate;
      }
      return if AllReady(objects, device.dir) then Install(package) else Error, Immediate;
    }

    method HandlePrepareLocalInstall(c: Choice) returns (next: State, transition: Transition)
      modifies device`dir
      ensures var r := Machine.HandlePrepareLocalInstall(old(View()), c);
              r.world == View().(state := next) && r.transition == transition && r.trail == []
    {
      device.Replace(c.dir);
      transition := Immediate;
      next := if c.prepared.None? then Error else Validation(c.prepared.value.0, Some(c.prepared.value.1), false);
    }

    // ---- Installing ----

    method InstallObjects(c: Choice, target: InstallSet) returns (ok: bool)
      requires state.Install?
      modifies this`trail, device
      ensures var r := Machine.InstallObjects(old(View()), c, target);
              View() == r.0 && ok == r.1 && trail == old(trail) + r.2
    {
      hide InstallOrder, WriteObjects;
      var objects := InstallOrder(state.package, target);
      ok := InstallEach(c, target, objects);
      assert objects[..|objects|] == objects;
      if ok && objects != [] {
        device.Complete(target, state.package.uid);
      }
    }

    /** Writes the objects up to the first that fails. */
    method InstallEach(c: Choice, target: InstallSet, objects: seq<Object>) returns (ok: bool)
      modifies this`trail, device
      ensures ok == (|objects| <= c.installs)
      ensures var r := WriteObjects(old(View()), target, if ok then objects else objects[..c.installs + 1]);
              View() == r.0 && trail == old(trail) + r.1
    {
      ghost var was, noted := View(), trail;
      ghost var begun := WriteObjects(was, target, []);
      hide WriteObjects, WriteObject, Durably;
      for i := 0 to |objects|
        invariant i <= c.installs
        invariant begun == WriteObjects(was, target, objects[..i])
        invariant View() == begun.0 && trail == noted + begun.1
      {
        OneMoreObject(was, target, objects, i);
        BeginObject(target, objects[i]);
        begun := WriteObjects(was, target, objects[..i + 1]);
        if i == c.installs {
          return false;
        }
      }
      assert objects[..|objects|] == objects;
      return true;
    }

    method BeginObject(target: InstallSet, o: Object)
      modifies this`trail, device
      ensures View() == WriteObject(old(View()), target, o) && trail == old(trail) + [Durably(View())]
    {
      device.Begin(target, o);
      Note();
    }

    method MarkAndSwap(c: Choice, target: InstallSet) returns (ok: bool)
      requires state.Install?
      modifies this`trail, settings, flag
      ensures var r := Machine.MarkAndSwap(old(View()), c, target, old(trail));
              r.world == View().(state := if ok then Reboot(state.package) else Error) && trail == r.trail
    {
      // Validation drops a package with this mark.
      ok := MarkApplied(state.package.uid, c.writes);
      if !ok {
        return;
      }
      ok := MarkPending(target, c.writesAgain);
      if !ok {
        return;
      }
      ok := flag.SwapActive(c.swaps);
      if ok {
        Note();
      }
    }

    method MarkApplied(uid: string, writes: bool) returns (ok: bool)
      modifies this`trail, settings
      ensures var mem := old(settings.inner).(applied := Some(uid));
              View() == WithSettings(old(View()), mem, writes) && ok == SettingsSave(old(View()), mem, writes)
      ensures trail == old(trail) + [Durably(View())]
    {
      ok := settings.SetAppliedPackageUid(uid, writes);
      Note();
    }

    method MarkPending(target: InstallSet, writes: bool) returns (ok: bool)
      modifies this`trail, settings
      ensures var mem := old(settings.inner).(upgrade := Some(target));
              View() == WithSettings(old(View()), mem, writes) && ok == SettingsSave(old(View()), mem, writes)
      ensures trail == old(trail) + [Durably(View())]
    {
      ok := settings.SetUpgradingTo(target, writes);
      Note();
    }

    method HandleInstall(c: Choice) returns (next: State, transition: Transition)
      requires state.Install?
      modifies this`trail, settings, flag, device
      ensures var r := Machine.HandleInstall(old(View()), c);
              r.world == View().(state := next) && r.transition == transition && trail == old(trail) + r.trail
    {
      transition := Immediate;
      var target := settings.GetInactiveInstallationSet(flag, c.scripts);
      if target.None? {
        return Error, Immediate;
      }
      var ok := InstallObjects(c, target.value);
      if !ok {
        return Error, Immediate;
      }
      TrailIsExtended(View(), c, target.value, old(trail), Machine.InstallObjects(old(View()), c, target.value).2);
      ok := MarkAndSwap(c, target.value);
      next := if ok then Reboot(state.package) else Error;
    }

    // ---- Requests ----

    method HandleMessage(r: Request) returns (reply: Option<Reply>, next: State)
      requires !blocked
      modifies this`trail, this`token, this`blocked, settings
      ensures var h := HandleRequest(old(View()), r);
              h.world == View().(state := next) && reply == h.reply && trail == old(trail) + h.trail
    {
      next := state;
      match r.message
      case Info => reply := Some(InfoReply(state, settings.inner));
      case ProbeServer(server) =>
        if !state.IsPreemptive() {
          reply := Some(ProbeServerReply(Busy(state)));
        } else {
          if server.Some? {
            settings.SetInner(settings.inner.(server := server));
          }
          reply, next := AnswerProbe(r);
        }
      case AbortDownload =>
        reply := Some(AbortReply(state.IsHandlingDownload()));
        if state.IsHandlingDownload() && r.listening {
          next := EntryPoint;
        }
      case LocalInstall(file) =>
        if !state.IsPreemptive() {
          reply := Some(LocalReply(false, state));
        } else {
          PostToken();
          if !blocked {
            reply := Some(LocalReply(true, state));
            next := if r.listening then PrepareLocalInstall(file) else state;
          } else {
            reply := None;
          }
        }
      case RemoteInstall(url) =>
        if !state.IsPreemptive() {
          reply := Some(RemoteReply(false, state));
        } else {
          PostToken();
          if !blocked {
            reply := Some(RemoteReply(true, state));
            next := if r.listening then DirectDownload(url) else state;
          } else {
            reply := None;
          }
        }
    }

    method PostToken()
      requires !blocked
      modifies this`token, this`blocked
      ensures View() == Post(old(View()))
    {
      if token {
        blocked := true;
      } else {
        token := true;
      }
    }

    method AnswerProbe(r: Request) returns (reply: Option<Reply>, next: State)
      requires !blocked
      modifies this`trail, this`token, this`blocked, settings
      ensures var h := ProbeOnRequest(old(View()), r);
              h.world == View().(state := next) && reply == h.reply && trail == old(trail) + h.trail
    {
      next := state;
      match r.answer
      case UrlError => reply := Some(ErrorReply);
      case Unreachable => reply := Some(ErrorReply);
      case ExtraPoll(seconds) => reply := Some(ProbeServerReply(TryAgain(seconds)));
      case NoUpdate => reply, next := StorePoll(r, Unavailable, EntryPoint);
      case Update(package, sign) => reply, next := StorePoll(r, Available, Validation(package, sign, true));
    }

    method StorePoll(r: Request, answer: ProbeReply, then_: State) returns (reply: Option<Reply>, next: State)
      requires !blocked
      modifies this`trail, this`token, this`blocked, settings
      ensures var h := PolledOnRequest(old(View()), r, answer, then_);
              h.world == View().(state := next) && reply == h.reply && trail == old(trail) + h.trail
    {
      next := state;
      PostToken();
      if blocked {
        return None, state;
      }
      var ok := settings.SetLastPolling(r.now, r.writes);
      Note();
      reply := Some(if ok then ProbeServerReply(answer) else ErrorReply);
      if ok && r.listening {
        next := then_;
      }
    }

    /** The request loops: what is pending is handled in turn, and may replace the state each time. */
    method HandleRequests(requests: seq<Request>) returns (replies: seq<Reply>)
      requires !blocked
      modifies this`trail, this`token, this`blocked, this`state, settings
      ensures var d := Drain(old(View()), requests);
              View() == d.world && replies == d.replies && trail == old(trail) + d.trail
    {
      ghost var was, noted := View(), trail;
      replies := [];
      for i := 0 to |requests|
        invariant !blocked
        invariant noted <= trail
        invariant Drained(View(), replies, trail[|noted|..]) == Drain(was, requests[..i])
      {
        assert requests[..i + 1][..i] == requests[..i];
        ghost var before := trail;
        var reply, next := HandleMessage(requests[i]);
        state := next;
        assert trail[|noted|..] == before[|noted|..] + trail[|before|..];
        if reply.Some? {
          replies := replies + [reply.value];
        }
        if blocked {
          DrainStays(was, requests, i + 1);
          return;
        }
      }
      assert requests[..|requests|] == requests;
    }

    /** Requests are heard while downloading until one of them replaces the state. */
    method ServeDownload(requests: seq<Request>) returns (replaced: bool)
      requires !blocked && state.IsHandlingDownload()
      modifies this`trail, this`token, this`blocked, this`state, settings
      ensures View() == Drain(old(View()), UntilReplaced(old(View()), requests)).world
      ensures trail == old(trail) + Drain(old(View()), UntilReplaced(old(View()), requests)).trail
      ensures replaced == (state != old(state))
    {
      ghost var was, noted := View(), trail;
      for i := 0 to |requests|
        invariant View() == was && trail == noted
        invariant Drain(was, UntilReplaced(was, requests[..i])).world == was
        invariant Drain(was, UntilReplaced(was, requests[..i])).trail == []
      {
        HearOneMore(was, requests, i);
        HeardOne(was, UntilReplaced(was, requests[..i]), requests[i]);
        var reply, next := HandleMessage(requests[i]);
        if next != state {
          state := next;
          ServedStays(was, requests, i + 1);
          return true;
        }
      }
      assert requests[..|requests|] == requests;
      return false;
    }

    method HandleDownload(c: Choice) returns (next: State, transition: Transition)
      requires !blocked && state.IsHandlingDownload()
      modifies this`trail, this`token, this`blocked, this`state, settings, device`dir
      ensures var r := if old(state).Download? then Machine.HandleDownload(old(View()), c)
                       else Machine.HandleDirectDownload(old(View()), c);
              r.world == View().(state := next) && r.transition == transition && trail == old(trail) + r.trail
    {
      transition := Immediate;
      var replaced := ServeDownload(c.during);
      device.Replace(c.dir);
      if replaced {
        return state, Immediate;
      }
      if !c.fetched {
        return Error, Immediate;
      }
      next := if state.Download? then Validation(state.package, state.sign, false)
              else PrepareLocalInstall("fetched_pkg");
    }

    // ---- The main loop ----

    method MoveToNextState(c: Choice) returns (next: State, transition: Transition)
      requires !blocked
      modifies this`trail, this`token, this`blocked, this`state, settings, flag, device
      ensures var r := Dispatch(env, old(View()), c);
              r.world == View().(state := next) && r.transition == transition && trail == old(trail) + r.trail
    {
      match state
      case Park => return Park, Never;
      case EntryPoint => next, transition := HandleEntryPoint(c);
      case Poll => next, transition := HandlePoll(c);
      case Validation(_, _, _) => next, transition := HandleValidation(c);
      case DirectDownload(_) => next, transition := HandleDownload(c);
      case Error => return EntryPoint, Immediate;
      case Probe =>
        if c.callback.Continue? {
          next, transition := HandleProbe(c);
        } else {
          next, transition := CancelProbe(c);
        }
      case PrepareLocalInstall(_) =>
        if c.callback.Continue? {
          next, transition := HandlePrepareLocalInstall(c);
        } else {
          return EntryPoint, Immediate;
        }
      case Download(_, _) =>
        if c.callback.Continue? {
          next, transition := HandleDownload(c);
        } else {
          return if c.callback.Cancel? then EntryPoint else Error, Immediate;
        }
      case Install(_) =>
        if c.callback.Continue? {
          next, transition := HandleInstall(c);
        } else {
          return if c.callback.Cancel? then EntryPoint else Error, Immediate;
        }
      case Reboot(_) =>
        if c.callback.Continue? {
          return if c.reboots then EntryPoint else Error, Immediate;
        } else {
          return if c.callback.Cancel? then EntryPoint else Error, Immediate;
        }
    }

    /** One turn of the main loop. */
    method Turn(c: Choice) returns (transition: Transition)
      requires !blocked
      modifies this`trail, this`token, this`blocked, this`state, settings, flag, device
      ensures var r := Step(env, old(View()), c);
              View() == r.world && transition == r.transition && trail == old(trail) + r.trail
    {
      ghost var was, noted := View(), trail;
      ConsumePending(c);
      ghost var drained := Drain(was.(token := false), c.pending);
      if blocked {
        return Never;
      }
      transition := HandleState(c);
      ghost var handled := Dispatch(env, drained.world, c);
      TrailsJoin(noted, drained.trail, handled.trail, Wait(handled.world, c).trail);
      if !transition.Immediate? {
        InstallGate.DispatchEnds(env, drained.world, c);
        AwaitCommunication(c);
      }
    }

    /** The token is discharged and the pending requests are handled before the state is. */
    method ConsumePending(c: Choice)
      requires !blocked
      modifies this`trail, this`token, this`blocked, this`state, settings
      ensures var d := Drain(old(View()).(token := false), c.pending);
              View() == d.world && trail == old(trail) + d.trail
    {
      token := false;
      var replies := HandleRequests(c.pending);
    }

    method HandleState(c: Choice) returns (transition: Transition)
      requires !blocked
      modifies this`trail, this`token, this`blocked, this`state, settings, flag, device
      ensures var r := Dispatch(env, old(View()), c);
              View() == r.world && transition == r.transition && trail == old(trail) + r.trail
    {
      var next;
      next, transition := MoveToNextState(c);
      state := next;
    }

    /** Waiting ends at once with a token; otherwise requests are handled until one posts it. */
    method AwaitCommunication(c: Choice)
      requires !blocked
      modifies this`trail, this`token, this`blocked, this`state, settings
      ensures var waited := Wait(old(View()), c);
              View() == waited.world && trail == old(trail) + waited.trail
    {
      if !token {
        var replies := HandleRequests(c.waiting);
      }
      token, blocked := false, false;
    }

    /** The main loop over any number of turns; a blocked machine makes no further turn. */
    method Start(choices: seq<Choice>)
      requires !blocked
      modifies this`trail, this`token, this`blocked, this`state, settings, flag, device
      ensures View() == Run(env, old(View()), choices)
      ensures trail == old(trail) + RunTrail(env, old(View()), choices)
    {
      ghost var was, noted := View(), trail;
      Note();
      for i := 0 to |choices|
        invariant !blocked
        invariant View() == Run(env, was, choices[..i]) && trail == noted + RunTrail(env, was, choices[..i])
      {
        assert choices[..i + 1][..i] == choices[..i];
        ghost var before := RunTrail(env, was, choices[..i]);
        var transition := Turn(choices[i]);
        TrailsJoin(noted, before, Step(env, Run(env, was, choices[..i]), choices[i]).trail, []);
        if blocked {
          BlockedRunStays(env, was, choices, i + 1);
          return;
        }
      }
      assert choices[..|choices|] == choices;
    }
  }

  /** One boot: the settings are loaded, startup is handled, and the machine starts whatever came of it. */
  method RunAgent(d: Durable, b: BootChoice) returns (machine: StateMachine)
    ensures machine.View() == Run(b.env, StartedBy(d, b).world, b.steps)
    ensures machine.trail == BootTrail(d, b)
    ensures SafeToBoot(d) && WellBehaved(d, b) ==> forall s | s in machine.trail :: SafeToBoot(s)
  {
    hide HandleStartup, Run, RunTrail, SafeToBoot, WellBehaved;
    var settings := new RuntimeSettings.Load(d.disk, b.startup.readOnly);
    var flag := new BootFlag(d.flag);
    var device := new Device(d.images.With(d.flag, Intact), b.startup.dir);
    machine := new StateMachine(b.env, d.flag, settings, flag, device);
    assert machine.View() == Boot(d, b.startup);
    machine.Note();
    StartupNeverBlocks(machine.View(), b.startup);
    var ending := machine.HandleStartupCallbacks(b.startup);
    machine.Start(b.steps);
    assert machine.trail == BootTrail(d, b);
    if SafeToBoot(d) && WellBehaved(d, b) {
      BootStaysSafe(d, b);
    }
  }

  lemma StartupNeverBlocks(w: World, c: StartupChoice)
    ensures HandleStartup(w, c).world.blocked == w.blocked
  {
  }

  lemma OneMoreObject(w: World, target: InstallSet, objects: seq<Object>, i: nat)
    requires i < |objects|
    ensures var before, after := WriteObjects(w, target, objects[..i]), WriteObjects(w, target, objects[..i + 1]);
            after.0 == WriteObject(before.0, target, objects[i]) && after.1 == before.1 + [Durably(after.0)]
  {
    assert objects[..i + 1][..i] == objects[..i];
  }

  lemma TrailsJoin(a: seq<Durable>, b: seq<Durable>, c: seq<Durable>, d: seq<Durable>)
    ensures a + b + c == a + (b + c)
    ensures a + b + c + d == a + (b + c + d)
  {
  }

  lemma DrainOneMore(w: World, requests: seq<Request>, r: Request)
    ensures var before, after := Drain(w, requests), Drain(w, requests + [r]);
            if before.world.blocked then after == before
            else
              var h := HandleRequest(before.world, r);
              after.world == h.world && after.trail == before.trail + h.trail
  {
    assert (requests + [r])[..|requests|] == requests;
  }

  lemma HearOneMore(w: World, requests: seq<Request>, i: nat)
    requires i < |requests|
    requires Drain(w, UntilReplaced(w, requests[..i])).world.state == w.state
    ensures UntilReplaced(w, requests[..i + 1]) == UntilReplaced(w, requests[..i]) + [requests[i]]
  {
    assert requests[..i + 1][..i] == requests[..i];
  }

  /** A request heard during a download saves nothing, and changes nothing unless it replaces the state. */
  lemma HeardOne(w: World, heard: seq<Request>, r: Request)
    requires w.state.IsHandlingDownload() && Drain(w, heard).world == w && !w.blocked && Drain(w, heard).trail == []
    ensures var after := Drain(w, heard + [r]);
            after.world == HandleRequest(w, r).world && after.trail == []
    ensures HandleRequest(w, r).trail == []
    ensures HandleRequest(w, r).world.state == w.state ==> HandleRequest(w, r).world == w
  {
    DrainOneMore(w, heard, r);
    NotPreempted(w, r);
    SavesNothing(w, r);
  }

  lemma SavesNothing(w: World, r: Request)
    requires w.state.IsHandlingDownload()
    ensures HandleRequest(w, r).trail == []
  {
  }

  lemma TrailIsExtended(w: World, c: Choice, target: InstallSet, front: seq<Durable>, trail: seq<Durable>)
    requires w.state.Install?
    ensures Machine.MarkAndSwap(w, c, target, front + trail).trail == front + Machine.MarkAndSwap(w, c, target, trail).trail
    ensures Machine.MarkAndSwap(w, c, target, front + trail).world == Machine.MarkAndSwap(w, c, target, trail).world
  {
  }

  lemma {:induction false} DrainStays(w: World, requests: seq<Request>, n: nat)
    requires n <= |requests| && Drain(w, requests[..n]).world.blocked
    ensures Drain(w, requests) == Drain(w, requests[..n])
  {
    if n == |requests| {
      assert requests[..n] == requests;
    } else {
      assert requests[..|requests| - 1][..n] == requests[..n];
      DrainStays(w, requests[..|requests| - 1], n);
    }
  }

  lemma {:induction false} ServedStays(w: World, requests: seq<Request>, n: nat)
    requires n <= |requests| && Drain(w, UntilReplaced(w, requests[..n])).world.state != w.state
    ensures UntilReplaced(w, requests) == UntilReplaced(w, requests[..n])
  {
    if n == |requests| {
      assert requests[..n] == requests;
    } else {
      assert requests[..|requests| - 1][..n] == requests[..n];
      ServedStays(w, requests[..|requests| - 1], n);
    }
  }

  lemma {:induction false} BlockedRunStays(env: Env, w: World, choices: seq<Choice>, n: nat)
    requires n <= |choices| && Run(env, w, choices[..n]).blocked
    ensures Run(env, w, choices) == Run(env, w, choices[..n])
    ensures RunTrail(env, w, choices) == RunTrail(env, w, choices[..n])
  {
    if n == |choices| {
      assert choices[..n] == choices;
    } else {
      assert choices[..|choices| - 1][..n] == choices[..n];
      BlockedRunStays(env, w, choices[..|choices| - 1], n);
    }
  }

}
