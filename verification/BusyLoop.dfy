/**
 The machine does not spin: without requests, a chain of steps that are over at once is short, whatever
 callbacks, handlers and saves do. There are two ways around it: a server address that does not parse,
 and a server that asks for an extra poll after no time at all.
 */
module BusyLoop {
  import opened Backoff
  import opened InstallGate
  import opened Machine
  import opened Packages
  import opened Runs

  /** The last poll was stored since `start`, at the latest at `now`. */
  predicate Recent(w: World, start: int, now: int) {
    start <= w.store.mem.last <= now
  }

  /** How far a state is from waiting; once the last poll is recent, polling waits. */
  function Level(s: State, recent: bool): nat {
    match s
    case Park => 0
    case Probe => 8
    case Poll => if recent then 0 else 9
    case EntryPoint => if recent then 1 else 10
    case Error => if recent then 2 else 11
    case Reboot(_) => if recent then 3 else 12
    case Install(_) => if recent then 4 else 13
    case Validation(_, _, download) => (if recent then 5 else 14) + if download then 2 else 0
    case Download(_, _) => if recent then 6 else 15
    case PrepareLocalInstall(_) => if recent then 6 else 15
    case DirectDownload(_) => if recent then 7 else 16
  }

  const LONGEST_CHAIN: nat := 56

  /** Steps over at once left at most: a forced probe and a stale poll each allow one more round. */
  function Rank(w: World, recent: bool): (rank: nat)
    ensures rank <= LONGEST_CHAIN
  {
    Level(w.state, recent) + (if w.store.mem.now then 20 else 0) + if recent then 0 else 20
  }

  /** No request comes in, the server address parses, and an extra poll is asked for after some time. */
  predicate Undisturbed(c: Choice) {
    && c.pending == [] && c.during == [] && c.waiting == []
    && !c.answer.UrlError? && (c.answer.ExtraPoll? ==> c.answer.seconds > 0)
  }

  /** The machine goes on without a rest: sleeping for zero or less is over at once. */
  predicate OverAtOnce(t: Transition) {
    t.Immediate? || (t.Delayed? && t.nanos <= 0)
  }

  lemma InstallRanksDown(w: World, c: Choice)
    requires w.state.Install?
    ensures var w' := HandleInstall(w, c).world;
            && (w'.state.Error? || w'.state.Reboot?)
            && w'.store.mem.last == w.store.mem.last && w'.store.mem.now == w.store.mem.now
  {
    if Target(w, c).Some? {
      var (w', ok, trail) := InstallObjects(w, c, Target(w, c).value);
      MarkAndSwapEffect(w', c, Target(w, c).value, trail);
      MarkAndSwapKeepsPolling(w', c, Target(w, c).value, trail);
    }
  }

  lemma MarkAndSwapKeepsPolling(w: World, c: Choice, target: InstallSet, trail: seq<Durable>)
    requires w.state.Install?
    ensures var mem := MarkAndSwap(w, c, target, trail).world.store.mem;
            mem.last == w.store.mem.last && mem.now == w.store.mem.now
  {
  }

  /** A recent poll is waited for, as the clock moves on by less than an interval. */
  lemma RecentPollWaits(env: Env, w: World, c: Choice, start: int)
    requires Recent(w, start, c.now) && c.now < start + env.interval
    ensures !OverAtOnce(HandlePoll(env, w, c).transition)
  {
  }

  /** Polling keeps an interval between probes: it waits until one has passed since the last, and not at all
      if the last one is in the future or a whole second overdue. */
  lemma PollKeepsTheInterval(env: Env, w: World, c: Choice)
    ensures var r := HandlePoll(env, w, c);
            var due := w.store.mem.last + env.interval;
            && r.world == w.(state := Probe) && r.trail == []
            && (r.transition.Immediate? <==> c.now < w.store.mem.last || c.now >= due + NANOS_PER_SECOND)
            && (!r.transition.Immediate? ==> r.transition.Delayed? && c.now + r.transition.nanos == due)
  {
  }

  lemma ValidationRanksDown(env: Env, w: World, c: Choice, recent: bool)
    requires w.state.Validation?
    ensures HandleValidation(env, w, c).world.store == w.store
    ensures Level(HandleValidation(env, w, c).world.state, recent) < Level(w.state, recent)
  {
  }

  lemma DownloadRanksDown(w: World, c: Choice, recent: bool)
    requires w.state.IsHandlingDownload() && c.during == []
    ensures w.state.Download? ==> HandleDownload(w, c).world.store == w.store
                                  && Level(HandleDownload(w, c).world.state, recent) < Level(w.state, recent)
    ensures w.state.DirectDownload? ==> HandleDirectDownload(w, c).world.store == w.store
                                        && Level(HandleDirectDownload(w, c).world.state, recent) < Level(w.state, recent)
  {
  }

  lemma EntryPointRanksDown(env: Env, w: World, c: Choice, start: int)
    requires w.state.EntryPoint?
    ensures var w' := HandleEntryPoint(env, w, c).world;
            Rank(w', Recent(w', start, c.now)) < Rank(w, Recent(w, start, c.now))
  {
  }

  lemma ProbeRanksDown(env: Env, w: World, c: Choice, start: int)
    requires w.state.Probe? && start <= c.now && Undisturbed(c)
    requires OverAtOnce(HandleProbe(env, w, c).transition)
    ensures var w' := HandleProbe(env, w, c).world;
            Rank(w', Recent(w', start, c.now)) < Rank(w, Recent(w, start, c.now))
  {
    hide RetryDelay;
    match c.answer
    case Unreachable =>
      RetryDelayIsCappedPower(w.store.mem.retries + 1, env.interval);
      assert false;
    case ExtraPoll(_) => assert false;
    case NoUpdate => PolledRanksDown(w, c, EntryPoint, start);
    case Update(package, sign) => PolledRanksDown(w, c, Validation(package, sign, true), start);
  }

  lemma PolledRanksDown(w: World, c: Choice, next: State, start: int)
    requires w.state.Probe? && start <= c.now && (next.EntryPoint? || next.Validation?)
    ensures var w' := Polled(w, c, next).world;
            Rank(w', Recent(w', start, c.now)) < Rank(w, Recent(w, start, c.now))
  {
  }

  lemma SkippedProbeRanksDown(w: World, c: Choice, start: int)
    requires w.state.Probe? && start <= c.now
    ensures var w' := SkipProbe(w, c).world;
            Rank(w', Recent(w', start, c.now)) < Rank(w, Recent(w, start, c.now))
  {
  }

  /** The settings polling depends on are unchanged and the state is closer to waiting. */
  ghost predicate Closer(w: World, w': World, recent: bool) {
    && w'.store.mem.last == w.store.mem.last && w'.store.mem.now == w.store.mem.now
    && Level(w'.state, recent) < Level(w.state, recent)
  }

  lemma InstallIsCloser(env: Env, w: World, c: Choice, recent: bool)
    requires w.state.Install?
    ensures Closer(w, Dispatch(env, w, c).world, recent)
  {
    hide HandleInstall;
    if c.callback.Continue? {
      InstallRanksDown(w, c);
    }
  }

  lemma DownloadIsCloser(env: Env, w: World, c: Choice, recent: bool)
    requires w.state.IsHandlingDownload() && c.during == []
    ensures Closer(w, Dispatch(env, w, c).world, recent)
  {
    hide HandleDownload, HandleDirectDownload;
    DownloadRanksDown(w, c, recent);
  }

  lemma OthersRankDown(env: Env, w: World, c: Choice, recent: bool)
    requires Undisturbed(c) && !w.state.EntryPoint? && !w.state.Probe? && !w.state.Poll? && !w.state.Park?
    ensures Closer(w, Dispatch(env, w, c).world, recent)
  {
    hide HandleValidation, HandleInstall, HandleDownload, HandleDirectDownload;
    if w.state.Validation? {
      ValidationRanksDown(env, w, c, recent);
    } else if w.state.IsHandlingDownload() {
      DownloadIsCloser(env, w, c, recent);
    } else if w.state.Install? {
      InstallIsCloser(env, w, c, recent);
    }
  }

  lemma DispatchRanksDown(env: Env, w: World, c: Choice, start: int)
    requires Undisturbed(c) && start <= c.now < start + env.interval
    requires OverAtOnce(Dispatch(env, w, c).transition)
    ensures var w' := Dispatch(env, w, c).world;
            Rank(w', Recent(w', start, c.now)) < Rank(w, Recent(w, start, c.now))
  {
    if w.state.EntryPoint? {
      EntryPointRanksDown(env, w, c, start);
    } else if w.state.Probe? {
      if c.callback.Continue? {
        ProbeRanksDown(env, w, c, start);
      } else {
        SkippedProbeRanksDown(w, c, start);
      }
    } else if w.state.Poll? {
      if Recent(w, start, c.now) {
        RecentPollWaits(env, w, c, start);
      }
    } else if !w.state.Park? {
      OthersRankDown(env, w, c, Recent(w, start, c.now));
    }
  }

  lemma StepRanksDown(env: Env, w: World, c: Choice, start: int, now: int)
    requires !w.blocked && Undisturbed(c) && now <= c.now && start <= c.now < start + env.interval
    requires OverAtOnce(Step(env, w, c).transition)
    ensures var w' := Step(env, w, c).world;
            && !w'.blocked
            && Rank(w', Recent(w', start, c.now)) < Rank(w, Recent(w, start, now))
  {
    var at := AtDispatch(w, c);
    assert at == w.(token := false);
    DispatchRanksDown(env, at, c, start);
    DispatchEnds(env, at, c);
    assert Rank(w, Recent(w, start, c.now)) <= Rank(w, Recent(w, start, now));
  }

  /** The clock never goes back, and moves on by less than an interval. */
  ghost predicate Steady(choices: seq<Choice>, start: int, interval: int) {
    && (forall i | 0 <= i < |choices| :: start <= choices[i].now < start + interval)
    && (forall i | 0 < i < |choices| :: choices[i - 1].now <= choices[i].now)
  }

  predicate AtOnce(env: Env, w: World, choices: seq<Choice>, i: nat)
    requires i < |choices|
  {
    OverAtOnce(Step(env, Run(env, w, choices[..i]), choices[i]).transition)
  }

  ghost predicate AllAtOnce(env: Env, w: World, choices: seq<Choice>) {
    forall i: nat | i < |choices| :: AtOnce(env, w, choices, i)
  }

  function Clock(choices: seq<Choice>, start: int): int {
    if choices == [] then start else choices[|choices| - 1].now
  }

  lemma {:induction false} ChainUsesUpRank(env: Env, w: World, choices: seq<Choice>, start: int)
    requires !w.blocked && AllAtOnce(env, w, choices) && Steady(choices, start, env.interval)
    requires forall i | 0 <= i < |choices| :: Undisturbed(choices[i])
    ensures var w' := Run(env, w, choices);
            && !w'.blocked
            && Rank(w', Recent(w', start, Clock(choices, start))) + |choices| <= Rank(w, Recent(w, start, start))
  {
    hide Step, Rank, Recent;
    if choices != [] {
      var front, c := choices[..|choices| - 1], choices[|choices| - 1];
      forall i: nat | i < |front|
        ensures AtOnce(env, w, front, i)
      {
        assert front[..i] == choices[..i] && AtOnce(env, w, choices, i);
      }
      ChainUsesUpRank(env, w, front, start);
      assert choices[..|front|] == front;
      assert AtOnce(env, w, choices, |front|);
      StepRanksDown(env, Run(env, w, front), c, start, Clock(front, start));
    }
  }

  /** Whatever the state, and whatever callbacks, handlers and saves do: no more than 56 steps in a row are over
      at once, so every chain ends in one that waits. */
  lemma NoBusyLoop(env: Env, w: World, choices: seq<Choice>, start: int)
    requires !w.blocked && Steady(choices, start, env.interval)
    requires forall i | 0 <= i < |choices| :: Undisturbed(choices[i])
    ensures AllAtOnce(env, w, choices) ==> |choices| <= LONGEST_CHAIN
  {
    if AllAtOnce(env, w, choices) {
      ChainUsesUpRank(env, w, choices, start);
    }
  }

  // ---- An address that does not parse ----

  function Failing(now: int): Choice {
    NoChoice().(answer := UrlError, now := now)
  }

  /** A machine about to probe the configured server, with polling enabled. */
  ghost predicate AboutToProbe(env: Env, w: World) {
    && w.state.Probe? && !w.blocked && !w.token && env.polling
    && !w.store.mem.now && w.store.mem.server.None?
  }

  /** The time of the last poll lies in the future, or an interval has passed since. */
  predicate Overdue(env: Env, w: World, now: int) {
    now < w.store.mem.last || now >= w.store.mem.last + env.interval
  }

  /** Choices of a server address that does not parse, with what the clock says at each. */
  function FailingAt(nows: seq<int>): (choices: seq<Choice>)
    ensures |choices| == |nows|
  {
    if nows == [] then [] else FailingAt(nows[..|nows| - 1]) + [Failing(nows[|nows| - 1])]
  }

  lemma OneMoreChoice(env: Env, w: World, choices: seq<Choice>, c: Choice)
    ensures Run(env, w, choices + [c]) == Step(env, Run(env, w, choices), c).world
    ensures AtOnce(env, w, choices + [c], |choices|) == OverAtOnce(Step(env, Run(env, w, choices), c).transition)
    ensures forall i: nat | i < |choices| :: AtOnce(env, w, choices + [c], i) == AtOnce(env, w, choices, i)
  {
    hide Step, OverAtOnce;
    assert (choices + [c])[..|choices|] == choices;
    forall i: nat | i < |choices|
      ensures AtOnce(env, w, choices + [c], i) == AtOnce(env, w, choices, i)
    {
      assert (choices + [c])[..i] == choices[..i];
    }
  }

  /** The world after a number of steps: from the probe to the error, the entry point, the poll and back. */
  function Phase(w: World, steps: nat): World {
    w.(state := if steps % 4 == 0 then Probe else if steps % 4 == 1 then Error
                else if steps % 4 == 2 then EntryPoint else Poll)
  }

  /** A probe that cannot even be sent does not refresh the time of the last poll: four steps lead back to it,
      and all of them are over at once exactly if the last poll is overdue. */
  lemma UrlErrorComesBack(env: Env, w: World, now: int, steps: nat)
    requires AboutToProbe(env, w)
    ensures var r := Step(env, Phase(w, steps), Failing(now));
            && r.world == Phase(w, steps + 1)
            && (OverAtOnce(r.transition) <==> steps % 4 != 3 || Overdue(env, w, now))
  {
    var at := Phase(w, steps);
    assert AtDispatch(at, Failing(now)) == at && Drain(at, []).world == at;
  }

  /** Whenever the round comes to the poll, it is overdue. */
  ghost predicate OverdueAtPolls(env: Env, w: World, nows: seq<int>) {
    forall i | 0 <= i < |nows| && i % 4 == 3 :: Overdue(env, w, nows[i])
  }

  /** So the machine goes on without a rest, for as long as the clock finds the poll overdue each time round: the
      time of the last poll is never refreshed. */
  lemma {:induction false} UrlErrorSpinsExactlyWhen(env: Env, w: World, nows: seq<int>)
    requires AboutToProbe(env, w)
    ensures Run(env, w, FailingAt(nows)) == Phase(w, |nows|)
    ensures AllAtOnce(env, w, FailingAt(nows)) <==> OverdueAtPolls(env, w, nows)
  {
    hide Step, Failing, Phase, OverAtOnce, Overdue, AtOnce;
    if nows == [] {
      StartsAtTheProbe(env, w);
    } else {
      var before, now := nows[..|nows| - 1], nows[|nows| - 1];
      UrlErrorSpinsExactlyWhen(env, w, before);
      UrlErrorComesBack(env, w, now, |before|);
      OneMoreChoice(env, w, FailingAt(before), Failing(now));
      AllButOne(env, w, FailingAt(before), Failing(now));
      assert nows == before + [now];
    }
  }

  lemma AllButOne(env: Env, w: World, choices: seq<Choice>, c: Choice)
    ensures AllAtOnce(env, w, choices + [c]) <==>
            AllAtOnce(env, w, choices) && OverAtOnce(Step(env, Run(env, w, choices), c).transition)
  {
    hide Step, OverAtOnce, Run, AtOnce;
    OneMoreChoice(env, w, choices, c);
    if AllAtOnce(env, w, choices + [c]) {
      assert AtOnce(env, w, choices + [c], |choices|);
      assert forall i: nat | i < |choices| :: AtOnce(env, w, choices + [c], i);
    }
  }

  lemma StartsAtTheProbe(env: Env, w: World)
    requires AboutToProbe(env, w)
    ensures Phase(w, 0) == w
  {
  }

  // ---- An extra poll after no time ----

  function Asking(seconds: int, now: int): Choice {
    NoChoice().(answer := ExtraPoll(seconds), now := now)
  }

  function Repeat(c: Choice, times: nat): (choices: seq<Choice>)
    ensures |choices| == times
  {
    if times == 0 then [] else Repeat(c, times - 1) + [c]
  }

  lemma OneMoreStep(env: Env, w: World, c: Choice, times: nat)
    ensures Run(env, w, Repeat(c, times + 1)) == Step(env, Run(env, w, Repeat(c, times)), c).world
    ensures AllAtOnce(env, w, Repeat(c, times + 1)) <==>
            AllAtOnce(env, w, Repeat(c, times)) && OverAtOnce(Step(env, Run(env, w, Repeat(c, times)), c).transition)
  {
    hide Step, OverAtOnce, Run, AllAtOnce;
    OneMoreChoice(env, w, Repeat(c, times), c);
    AllButOne(env, w, Repeat(c, times), c);
  }

  lemma ExtraPollComesBack(env: Env, w: World, seconds: int, now: int)
    requires w.state.Probe? && !w.blocked
    ensures var r := Step(env, w, Asking(seconds, now));
            && (OverAtOnce(r.transition) <==> seconds <= 0)
            && r.world == w.(store := w.store.(mem := w.store.mem.(retries := 0)), token := false)
  {
    assert AtDispatch(w, Asking(seconds, now)) == w.(token := false);
    assert Drain(w, []).world == w;
  }

  lemma {:induction false} ExtraPollRepeats(env: Env, w: World, seconds: int, now: int, times: nat)
    requires w.state.Probe? && !w.blocked && seconds <= 0
    ensures AllAtOnce(env, w, Repeat(Asking(seconds, now), times))
    ensures var w' := Run(env, w, Repeat(Asking(seconds, now), times)); w'.state.Probe? && !w'.blocked
  {
    hide Step, Asking, OverAtOnce;
    if times > 0 {
      ExtraPollRepeats(env, w, seconds, now, times - 1);
      ExtraPollComesBack(env, Run(env, w, Repeat(Asking(seconds, now), times - 1)), seconds, now);
      OneMoreStep(env, w, Asking(seconds, now), times - 1);
    }
  }

  /** A server that asks for an extra poll over and over makes the machine spin for ever exactly if it asks for
      it after no time. */
  lemma ExtraPollSpinsExactlyWhen(env: Env, w: World, seconds: int, now: int)
    requires w.state.Probe? && !w.blocked
    ensures (forall times: nat :: AllAtOnce(env, w, Repeat(Asking(seconds, now), times))) <==> seconds <= 0
  {
    hide Step, Asking, OverAtOnce;
    if seconds <= 0 {
      forall times: nat
        ensures AllAtOnce(env, w, Repeat(Asking(seconds, now), times))
      {
        ExtraPollRepeats(env, w, seconds, now, times);
      }
    } else {
      ExtraPollComesBack(env, w, seconds, now);
      OneMoreStep(env, w, Asking(seconds, now), 0);
      assert !AllAtOnce(env, w, Repeat(Asking(seconds, now), 0 + 1));
    }
  }

  // ---- Probes that fail ----

  /** A probe that cannot reach the server waits for one more failure's delay, and stays a probe. */
  lemma FailedProbeBacksOff(env: Env, w: World, c: Choice)
    requires w.state.Probe? && !w.blocked
    requires c.pending == [] && c.waiting == [] && c.callback.Continue? && c.answer.Unreachable?
    ensures var retries := w.store.mem.retries + 1;
            && Step(env, w, c).transition == Delayed(RetryDelay(retries, env.interval) * NANOS_PER_SECOND)
            && Step(env, w, c).world == w.(store := w.store.(mem := w.store.mem.(retries := retries)), token := false)
  {
    assert AtDispatch(w, c) == w.(token := false);
  }

  /** The step asks the server for an update. */
  predicate Probes(w: World, c: Choice) {
    && !w.blocked && !AtDispatch(w, c).blocked
    && AtDispatch(w, c).state.Probe? && c.callback.Continue?
  }

  /** Probes that failed since the last one the server answered, with those counted before the run. */
  function FailuresInARow(env: Env, w: World, choices: seq<Choice>): nat {
    if choices == [] then w.store.mem.retries
    else
      var front, c := choices[..|choices| - 1], choices[|choices| - 1];
      if !Probes(Run(env, w, front), c) || c.answer.UrlError? then FailuresInARow(env, w, front)
      else if c.answer.Unreachable? then FailuresInARow(env, w, front) + 1
      else 0
  }

  lemma RequestKeepsRetries(w: World, r: Request)
    ensures HandleRequest(w, r).world.store.mem.retries == w.store.mem.retries
  {
    match r.message
    case Info =>
    case ProbeServer(_) =>
    case AbortDownload =>
    case LocalInstall(_) =>
    case RemoteInstall(_) =>
  }

  lemma {:induction false} DrainKeepsRetries(w: World, requests: seq<Request>)
    ensures Drain(w, requests).world.store.mem.retries == w.store.mem.retries
  {
    hide HandleRequest;
    if requests != [] {
      DrainKeepsRetries(w, requests[..|requests| - 1]);
      RequestKeepsRetries(Drain(w, requests[..|requests| - 1]).world, requests[|requests| - 1]);
    }
  }

  lemma InstallKeepsRetries(w: World, c: Choice)
    requires w.state.Install?
    ensures HandleInstall(w, c).world.store.mem.retries == w.store.mem.retries
  {
    hide InstallObjects;
  }

  lemma DownloadKeepsRetries(w: World, c: Choice)
    requires w.state.IsHandlingDownload()
    ensures w.state.Download? ==> HandleDownload(w, c).world.store.mem.retries == w.store.mem.retries
    ensures w.state.DirectDownload? ==> HandleDirectDownload(w, c).world.store.mem.retries == w.store.mem.retries
  {
    hide Drain, UntilReplaced;
    DrainKeepsRetries(w, UntilReplaced(w, c.during));
  }

  lemma DispatchKeepsRetries(env: Env, w: World, c: Choice)
    requires !(w.state.Probe? && c.callback.Continue?)
    ensures Dispatch(env, w, c).world.store.mem.retries == w.store.mem.retries
  {
    hide HandleInstall, HandleDownload, HandleDirectDownload, HandleProbe, HandleValidation;
    if w.state.Install? {
      InstallKeepsRetries(w, c);
    } else if w.state.IsHandlingDownload() {
      DownloadKeepsRetries(w, c);
    } else if w.state.Validation? {
      ValidationAcceptsExactlyWhen(env, w, c);
    }
  }

  lemma ProbeCountsFailures(env: Env, w: World, c: Choice)
    ensures HandleProbe(env, w, c).world.store.mem.retries ==
            match c.answer
            case UrlError => w.store.mem.retries
            case Unreachable => w.store.mem.retries + 1
            case _ => 0
  {
  }

  lemma StepCountsFailures(env: Env, w: World, c: Choice)
    ensures Step(env, w, c).world.store.mem.retries ==
            if Probes(w, c) then HandleProbe(env, AtDispatch(w, c), c).world.store.mem.retries else w.store.mem.retries
    ensures AtDispatch(w, c).store.mem.retries == w.store.mem.retries
  {
    DrainKeepsRetries(w.(token := false), c.pending);
    var at := AtDispatch(w, c);
    if !w.blocked && !at.blocked {
      hide Drain, HandleProbe;
      var handled := Dispatch(env, at, c);
      if !Probes(w, c) {
        DispatchKeepsRetries(env, at, c);
      }
      DrainKeepsRetries(handled.world, c.waiting);
    }
  }

  /** In every run the counter the back-off goes by is the number of failures since the last answer,
      whatever requests, installs, errors and waits come in between. */
  lemma {:induction false} RetriesCountFailures(env: Env, w: World, choices: seq<Choice>)
    ensures Run(env, w, choices).store.mem.retries == FailuresInARow(env, w, choices)
  {
    hide Step, HandleProbe;
    if choices != [] {
      var before, c := Run(env, w, choices[..|choices| - 1]), choices[|choices| - 1];
      RetriesCountFailures(env, w, choices[..|choices| - 1]);
      StepCountsFailures(env, before, c);
      ProbeCountsFailures(env, AtDispatch(before, c), c);
    }
  }

  /** A probe that was answered or cancelled is what the polling interval counts from, also after a restart. */
  lemma ProbeTimeIsStored(env: Env, w: World, c: Choice)
    requires w.state.Probe? && (c.callback.Continue? ==> c.answer.NoUpdate? || c.answer.Update?)
    ensures var store := Dispatch(env, w, c).world.store;
            && store.mem.last == c.now
            && (w.store.mem.persistent && c.writes ==> store.disk.Some? && store.disk.value.last == c.now)
  {
  }

  function WaitOf(t: Transition): int {
    if t.Delayed? then t.nanos else 0
  }

  function TotalDelay(env: Env, w: World, choices: seq<Choice>): int {
    if choices == [] then 0
    else
      TotalDelay(env, w, choices[..|choices| - 1])
      + WaitOf(Step(env, Run(env, w, choices[..|choices| - 1]), choices[|choices| - 1]).transition)
  }

  /** Over a run of failures the machine waits as long as the back-off says in total. */
  lemma {:induction false} FailuresWait(env: Env, w: World, choices: seq<Choice>)
    requires w.state.Probe? && !w.blocked && w.store.mem.retries == 0
    requires forall c | c in choices ::
               c.pending == [] && c.waiting == [] && c.callback.Continue? && c.answer.Unreachable?
    ensures TotalDelay(env, w, choices) == TotalWait(|choices|, env.interval) * NANOS_PER_SECOND
    ensures var w' := Run(env, w, choices);
            w'.state.Probe? && !w'.blocked && w'.store.mem.retries == |choices|
  {
    if choices != [] {
      var front, c := choices[..|choices| - 1], choices[|choices| - 1];
      assert c in choices && forall f | f in front :: f in choices;
      FailuresWait(env, w, front);
      FailedProbeBacksOff(env, Run(env, w, front), c);
    }
  }
}
