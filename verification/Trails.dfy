/**
 What the trail of a run holds: nothing durable changes but by a write that is on the trail, and the trail
 ends in what is durable now.
 */
module Trails {
  import opened Backoff
  import opened CrashSafety
  import opened InstallGate
  import opened Machine
  import opened Packages
  import opened Runs
  import opened WriteAhead

  /** From `w`, the last write of the trail, if there is any, leaves what is durable in `w'`. */
  ghost predicate EndsIn(w: World, trail: seq<Durable>, w': World) {
    Durably(w') == if trail == [] then Durably(w) else trail[|trail| - 1]
  }

  lemma EndsCompose(a: World, front: seq<Durable>, b: World, back: seq<Durable>, c: World)
    requires EndsIn(a, front, b) && EndsIn(b, back, c)
    ensures EndsIn(a, front + back, c)
  {
  }

  lemma RequestEnds(w: World, r: Request)
    ensures EndsIn(w, HandleRequest(w, r).trail, HandleRequest(w, r).world)
  {
    hide ProbeOnRequest;
    match r.message
    case Info =>
    case ProbeServer(server) =>
      ProbeRequestEnds(if server.Some? then w.(store := w.store.(mem := w.store.mem.(server := server))) else w, r);
    case AbortDownload =>
    case LocalInstall(_) =>
    case RemoteInstall(_) =>
  }

  lemma ProbeRequestEnds(w: World, r: Request)
    ensures EndsIn(w, ProbeOnRequest(w, r).trail, ProbeOnRequest(w, r).world)
  {
  }

  lemma {:induction false} DrainEnds(w: World, requests: seq<Request>)
    ensures EndsIn(w, Drain(w, requests).trail, Drain(w, requests).world)
  {
    hide HandleRequest, EndsIn;
    if requests == [] {
      NothingEnds(w);
    } else {
      var before := Drain(w, requests[..|requests| - 1]);
      DrainEnds(w, requests[..|requests| - 1]);
      if !before.world.blocked {
        var h := HandleRequest(before.world, requests[|requests| - 1]);
        RequestEnds(before.world, requests[|requests| - 1]);
        EndsCompose(w, before.trail, before.world, h.trail, h.world);
      }
    }
  }

  lemma NothingEnds(w: World)
    ensures EndsIn(w, [], w)
  {
  }

  lemma InstallEndsIn(w: World, c: Choice)
    requires w.state.Install?
    ensures EndsIn(w, HandleInstall(w, c).trail, HandleInstall(w, c).world)
  {
    hide InstallOrder;
    if Target(w, c).Some? {
      var target := Target(w, c).value;
      var (w', ok, trail) := InstallObjects(w, c, target);
      SameLength(w.state.package, target);
      ObjectsTrail(w, c, target);
      if ok {
        hide InstallObjects;
        MarksEnd(w', c, target, trail);
      } else {
        BeginsSome(w, c, target);
      }
    }
  }

  lemma BeginsSome(w: World, c: Choice, target: InstallSet)
    requires w.state.Install? && !InstallObjects(w, c, target).1
    ensures InstallObjects(w, c, target).2 != [] && w.state.package.Objects(target) != []
  {
    SameLength(w.state.package, target);
  }

  lemma MarksEnd(w: World, c: Choice, target: InstallSet, trail: seq<Durable>)
    requires w.state.Install?
    ensures var r := MarkAndSwap(w, c, target, trail);
            r.trail != [] && r.trail[|r.trail| - 1] == Durably(r.world)
  {
  }

  lemma DownloadEndsIn(w: World, c: Choice)
    requires w.state.IsHandlingDownload()
    ensures w.state.Download? ==> EndsIn(w, HandleDownload(w, c).trail, HandleDownload(w, c).world)
    ensures w.state.DirectDownload? ==> EndsIn(w, HandleDirectDownload(w, c).trail, HandleDirectDownload(w, c).world)
  {
    DrainEnds(w, UntilReplaced(w, c.during));
    hide Drain, UntilReplaced;
  }

  lemma ProbeEnds(env: Env, w: World, c: Choice)
    ensures EndsIn(w, HandleProbe(env, w, c).trail, HandleProbe(env, w, c).world)
    ensures EndsIn(w, SkipProbe(w, c).trail, SkipProbe(w, c).world)
    ensures EndsIn(w, HandleEntryPoint(env, w, c).trail, HandleEntryPoint(env, w, c).world)
  {
  }

  lemma DispatchEndsIn(env: Env, w: World, c: Choice)
    ensures EndsIn(w, Dispatch(env, w, c).trail, Dispatch(env, w, c).world)
  {
    hide HandleInstall, HandleDownload, HandleDirectDownload, HandleProbe, SkipProbe, HandleEntryPoint, HandleValidation;
    ProbeEnds(env, w, c);
    if w.state.Install? {
      InstallEndsIn(w, c);
    } else if w.state.Validation? {
      ValidationAcceptsExactlyWhen(env, w, c);
    } else if w.state.IsHandlingDownload() {
      DownloadEndsIn(w, c);
    }
  }

  lemma StepEnds(env: Env, w: World, c: Choice)
    ensures EndsIn(w, Step(env, w, c).trail, Step(env, w, c).world)
  {
    hide Dispatch, Drain;
    if !w.blocked {
      var start, drained := w.(token := false), Drain(w.(token := false), c.pending);
      DrainEnds(start, c.pending);
      assert EndsIn(w, drained.trail, drained.world);
      if !drained.world.blocked {
        var handled := Dispatch(env, drained.world, c);
        DispatchEndsIn(env, drained.world, c);
        EndsCompose(w, drained.trail, drained.world, handled.trail, handled.world);
        var waited := Wait(handled.world, c);
        DrainEnds(handled.world, c.waiting);
        EndsCompose(w, drained.trail + handled.trail, handled.world, waited.trail, waited.world);
      }
    }
  }

  /** Over every run, the first of its durable states is the one it starts from, and the last what it leaves. */
  lemma {:induction false} TrailIsComplete(env: Env, w: World, choices: seq<Choice>)
    ensures var trail := RunTrail(env, w, choices);
            trail != [] && trail[0] == Durably(w) && trail[|trail| - 1] == Durably(Run(env, w, choices))
  {
    hide Step;
    if choices != [] {
      TrailIsComplete(env, w, choices[..|choices| - 1]);
      StepEnds(env, Run(env, w, choices[..|choices| - 1]), choices[|choices| - 1]);
    }
  }

  /** The same of a boot, whose first durable state is what power left, with the flagged set booted. */
  lemma BootTrailIsComplete(d: Durable, b: BootChoice)
    ensures var trail := BootTrail(d, b);
            && trail[0] == d.(images := d.images.With(d.flag, Intact))
            && trail[|trail| - 1] == Durably(Run(b.env, StartedBy(d, b).world, b.steps))
            && (StartedBy(d, b).trail == [] ==> Durably(StartedBy(d, b).world) == trail[0])
            && (StartedBy(d, b).trail != [] ==> StartedBy(d, b).trail == [Durably(StartedBy(d, b).world)])
  {
    TrailIsComplete(b.env, StartedBy(d, b).world, b.steps);
    hide Run, RunTrail;
  }

  // ---- Turns ----

  /** A token that is there when a turn begins makes no difference: it is discharged first. */
  lemma TokenIsDischarged(env: Env, w: World, c: Choice)
    requires !w.blocked
    ensures Step(env, w, c) == Step(env, w.(token := false), c)
  {
  }

  /** Pending requests come before the state is handled: a turn with them is one without, from the world they
      leave, but for a token they posted. */
  lemma RequestsComeFirst(env: Env, w: World, c: Choice)
    requires !w.blocked && !AtDispatch(w, c).blocked && !AtDispatch(w, c).token
    ensures var later := Step(env, AtDispatch(w, c), c.(pending := []));
            Step(env, w, c).world == later.world && Step(env, w, c).transition == later.transition
  {
    hide HandleRequest;
    PendingDoesNotMatter(env, AtDispatch(w, c), c);
    NothingPending(AtDispatch(w, c), c.(pending := []));
  }

  lemma PendingDoesNotMatter(env: Env, w: World, c: Choice)
    ensures Dispatch(env, w, c.(pending := [])) == Dispatch(env, w, c)
    ensures Wait(w, c.(pending := [])) == Wait(w, c)
  {
    hide HandleInstall, HandleValidation, HandleProbe, SkipProbe, HandleEntryPoint, Drain, UntilReplaced;
    var quiet := c.(pending := []);
    match w.state
    case Install(_) => InstallIsTheSame(w, c, quiet);
    case Validation(_, _, _) => ValidationIsTheSame(env, w, c, quiet);
    case Probe => ProbeIsTheSame(env, w, c, quiet);
    case EntryPoint => EntryPointIsTheSame(env, w, c, quiet);
    case _ =>
  }

  lemma InstallIsTheSame(w: World, c: Choice, d: Choice)
    requires w.state.Install? && d == c.(pending := [])
    ensures HandleInstall(w, d) == HandleInstall(w, c)
  {
    hide InstallOrder, WriteObjects;
  }

  lemma ValidationIsTheSame(env: Env, w: World, c: Choice, d: Choice)
    requires w.state.Validation? && d == c.(pending := [])
    ensures HandleValidation(env, w, d) == HandleValidation(env, w, c)
  {
  }

  lemma ProbeIsTheSame(env: Env, w: World, c: Choice, d: Choice)
    requires d == c.(pending := [])
    ensures HandleProbe(env, w, d) == HandleProbe(env, w, c) && SkipProbe(w, d) == SkipProbe(w, c)
  {
    hide WithSettings, SettingsSave, RetryDelay;
  }

  lemma EntryPointIsTheSame(env: Env, w: World, c: Choice, d: Choice)
    requires d == c.(pending := [])
    ensures HandleEntryPoint(env, w, d) == HandleEntryPoint(env, w, c)
  {
    hide WithSettings, SettingsSave;
  }
}
