/**
 What requests do to the state machine, over any queue of them: which states they can replace, what
 they are answered, and when they wake or block the machine.
 */
module Requests {
  import opened Machine
  import opened SettingsStore
  import opened Wrappers

  /** The reply is of the kind the message asks for; only a probe can be answered with an error. */
  predicate Answers(message: Message, reply: Reply) {
    match message
    case Info => reply.InfoReply?
    case ProbeServer(_) => reply.ProbeServerReply? || reply.ErrorReply?
    case AbortDownload => reply.AbortReply?
    case LocalInstall(_) => reply.LocalReply?
    case RemoteInstall(_) => reply.RemoteReply?
  }

  predicate IsAbort(r: Request) {
    r.message.AbortDownload? && r.listening
  }

  /** The request wakes a machine that can be preempted. */
  predicate IsWaking(r: Request) {
    match r.message
    case Info => false
    case ProbeServer(_) => r.answer.NoUpdate? || r.answer.Update?
    case AbortDownload => false
    case LocalInstall(_) => true
    case RemoteInstall(_) => true
  }

  /** Handling the request posts a wake-up token, or waits to. */
  predicate Wakes(w: World, r: Request) {
    w.state.IsPreemptive() && IsWaking(r)
  }

  /** All that matters of a state to the requests that come in. */
  datatype Mode = Preemptive | Downloading | Undisturbable

  function ModeOf(s: State): Mode {
    if s.IsPreemptive() then Preemptive else if s.IsHandlingDownload() then Downloading else Undisturbable
  }

  /** The mode a request leads to, going by the request alone. */
  function NextMode(mode: Mode, r: Request): Mode {
    if !r.listening then mode
    else
      match r.message
      case LocalInstall(_) => if mode.Preemptive? then Undisturbable else mode
      case RemoteInstall(_) => if mode.Preemptive? then Downloading else mode
      case AbortDownload => if mode.Downloading? then Preemptive else mode
      case _ => mode
  }

  /** What handling one request may do to the machine. */
  ghost predicate Effect(w: World, r: Request, h: Handled) {
    && (h.world.blocked <==> w.token && Wakes(w, r))
    && (h.world.token <==> w.token || Wakes(w, r))
    && (h.world.state != w.state ==> Wakes(w, r) || (w.state.IsHandlingDownload() && IsAbort(r)))
    && (h.world.blocked ==> h.world.state == w.state)
    && (h.world.state.Install? ==> w.state.Install?)
    && (!h.world.blocked ==> ModeOf(h.world.state) == NextMode(ModeOf(w.state), r))
  }

  lemma RequestEffect(w: World, r: Request)
    requires !w.blocked
    ensures Effect(w, r, HandleRequest(w, r))
  {
    match r.message
    case Info =>
    case ProbeServer(server) =>
      if w.state.IsPreemptive() {
        var asked := if server.Some? then w.(store := w.store.(mem := w.store.mem.(server := server))) else w;
        ProbeEffect(asked, r);
      }
    case AbortDownload =>
    case LocalInstall(file) =>
    case RemoteInstall(url) =>
  }

  lemma ProbeEffect(w: World, r: Request)
    requires !w.blocked && w.state.IsPreemptive() && r.message.ProbeServer?
    ensures Effect(w, r, ProbeOnRequest(w, r))
  {
    match r.answer
    case UrlError =>
    case Unreachable =>
    case ExtraPoll(seconds) =>
    case NoUpdate =>
    case Update(package, sign) =>
  }

  /** A request is answered in kind, unless it is left waiting to post its token. */
  lemma RequestReply(w: World, r: Request)
    requires !w.blocked
    ensures HandleRequest(w, r).reply.None? <==> HandleRequest(w, r).world.blocked
    ensures HandleRequest(w, r).reply.Some? ==> Answers(r.message, HandleRequest(w, r).reply.value)
  {
    hide ProbeOnRequest;
    match r.message
    case Info =>
    case ProbeServer(server) =>
      if w.state.IsPreemptive() {
        ProbeReplies(if server.Some? then w.(store := w.store.(mem := w.store.mem.(server := server))) else w, r);
      }
    case AbortDownload =>
    case LocalInstall(file) =>
    case RemoteInstall(url) =>
  }

  lemma ProbeReplies(w: World, r: Request)
    requires !w.blocked && r.message.ProbeServer?
    ensures ProbeOnRequest(w, r).reply.None? <==> ProbeOnRequest(w, r).world.blocked
    ensures ProbeOnRequest(w, r).reply.Some? ==> Answers(r.message, ProbeOnRequest(w, r).reply.value)
  {
  }

  /** What each reply says is so: the state and settings as they were, whether the request was accepted, and what
      the server answered. A request that is refused changes nothing. */
  lemma RepliesAreTrue(w: World, r: Request)
    requires !w.blocked
    ensures var h := HandleRequest(w, r);
            var idle := w.state.Park? || w.state.EntryPoint? || w.state.Poll? || w.state.Probe? || w.state.Validation?;
            var downloading := w.state.Download? || w.state.DirectDownload?;
            match r.message
            case Info => h.reply == Some(InfoReply(w.state, w.store.mem)) && h.world == w
            case AbortDownload =>
              && h.reply == Some(AbortReply(downloading))
              && h.world == if downloading && r.listening then w.(state := EntryPoint) else w
            case LocalInstall(_) =>
              (h.reply.Some? ==> h.reply.value == LocalReply(idle, w.state)) && (!idle ==> h.reply.Some? && h.world == w)
            case RemoteInstall(_) =>
              (h.reply.Some? ==> h.reply.value == RemoteReply(idle, w.state)) && (!idle ==> h.reply.Some? && h.world == w)
            case ProbeServer(server) =>
              if !idle then h.reply == Some(ProbeServerReply(Busy(w.state))) && h.world == w
              else h.reply.Some? ==> ReportsAnswer(h.reply.value, r, w.store.mem.persistent ==> r.writes)
  {
    hide ProbeOnRequest;
    match r.message
    case Info =>
    case ProbeServer(server) =>
      if w.state.IsPreemptive() {
        ProbeReports(if server.Some? then w.(store := w.store.(mem := w.store.mem.(server := server))) else w, r);
      }
    case AbortDownload =>
    case LocalInstall(file) =>
    case RemoteInstall(url) =>
  }

  /** An update and its absence are reported once the time of the probe is saved, a failure as an error. */
  predicate ReportsAnswer(reply: Reply, r: Request, saved: bool) {
    && (reply == ProbeServerReply(Available) <==> r.answer.Update? && saved)
    && (reply == ProbeServerReply(Unavailable) <==> r.answer.NoUpdate? && saved)
    && (r.answer.ExtraPoll? ==> reply == ProbeServerReply(TryAgain(r.answer.seconds)))
    && (reply == ErrorReply <==>
          r.answer.UrlError? || r.answer.Unreachable? || (!saved && (r.answer.NoUpdate? || r.answer.Update?)))
  }

  lemma ProbeReports(w: World, r: Request)
    requires !w.blocked
    ensures ProbeOnRequest(w, r).reply.Some? ==>
              ReportsAnswer(ProbeOnRequest(w, r).reply.value, r, w.store.mem.persistent ==> r.writes)
  {
  }

  /** A machine that cannot be preempted only ever heeds the abort of a download. */
  lemma NotPreempted(w: World, r: Request)
    requires !w.state.IsPreemptive()
    ensures HandleRequest(w, r).world == if w.state.IsHandlingDownload() && IsAbort(r) then w.(state := EntryPoint) else w
  {
  }

  /** Every request is answered once, in order and in kind, up to the one that blocks. */
  lemma {:induction false} EachIsAnsweredInKind(w: World, requests: seq<Request>)
    requires !w.blocked
    ensures |Drain(w, requests).replies| <= |requests|
    ensures !Drain(w, requests).world.blocked ==> |Drain(w, requests).replies| == |requests|
    ensures forall i | 0 <= i < |Drain(w, requests).replies| :: Answers(requests[i].message, Drain(w, requests).replies[i])
  {
    hide HandleRequest;
    if requests != [] {
      var before := Drain(w, requests[..|requests| - 1]);
      EachIsAnsweredInKind(w, requests[..|requests| - 1]);
      if !before.world.blocked {
        RequestReply(before.world, requests[|requests| - 1]);
      }
    }
  }

  /** Installing, rebooting, failing and preparing a local install are never disturbed. */
  lemma {:induction false} BusyStatesIgnoreRequests(w: World, requests: seq<Request>)
    requires !w.blocked && (w.state.Install? || w.state.Reboot? || w.state.Error? || w.state.PrepareLocalInstall?)
    ensures Drain(w, requests).world == w && |Drain(w, requests).replies| == |requests|
  {
    if requests != [] {
      BusyStatesIgnoreRequests(w, requests[..|requests| - 1]);
      NotPreempted(w, requests[|requests| - 1]);
      RequestReply(w, requests[|requests| - 1]);
    }
  }

  /** A download is left exactly when a client that still listens aborts it, and then for the entry point. */
  lemma {:induction false} OnlyAbortsEndADownload(w: World, requests: seq<Request>)
    requires !w.blocked && w.state.IsHandlingDownload()
    ensures var served := Drain(w, UntilReplaced(w, requests)).world;
            if exists r :: r in requests && IsAbort(r) then served == w.(state := EntryPoint) else served == w
  {
    if requests != [] {
      var before, last := requests[..|requests| - 1], requests[|requests| - 1];
      OnlyAbortsEndADownload(w, before);
      assert forall r :: r in requests <==> r in before || r == last;
      var heard := UntilReplaced(w, before);
      if Drain(w, heard).world.state == w.state {
        NotPreempted(w, last);
        assert (heard + [last])[..|heard|] == heard;
      }
    }
  }

  /** A machine that can be preempted has its state replaced only along with a token. */
  lemma {:induction false} ReplacedStateWakes(w: World, requests: seq<Request>)
    requires !w.blocked && w.state.IsPreemptive()
    ensures Drain(w, requests).world.state != w.state ==> Drain(w, requests).world.token
    ensures w.token ==> Drain(w, requests).world.token
  {
    if requests != [] {
      var before := Drain(w, requests[..|requests| - 1]);
      ReplacedStateWakes(w, requests[..|requests| - 1]);
      if !before.world.blocked {
        RequestEffect(before.world, requests[|requests| - 1]);
      }
    }
  }

  /** The machine only waits in states that can be preempted, so no replaced state is slept on. */
  lemma WaitingMachineIsWoken(env: Env, w: World, c: Choice)
    requires !w.blocked && !Dispatch(env, w, c).transition.Immediate?
    ensures var handled := Dispatch(env, w, c).world;
            && handled.state.IsPreemptive()
            && (Wait(handled, c).world.state != handled.state ==> Drain(handled, c.waiting).world.token)
  {
    hide HandleRequest;
    var handled := Dispatch(env, w, c).world;
    if !handled.token {
      ReplacedStateWakes(handled, c.waiting);
    }
  }

  function ModeAfter(mode: Mode, requests: seq<Request>): Mode {
    if requests == [] then mode else NextMode(ModeAfter(mode, requests[..|requests| - 1]), requests[|requests| - 1])
  }

  /** How many requests of a queue wake the machine, going by the queue alone. */
  function WakingRequests(mode: Mode, requests: seq<Request>): nat {
    if requests == [] then 0
    else
      var before, last := requests[..|requests| - 1], requests[|requests| - 1];
      WakingRequests(mode, before) + if ModeAfter(mode, before).Preemptive? && IsWaking(last) then 1 else 0
  }

  /** Draining a queue blocks the machine for ever exactly when two of its requests wake it, or one does and
      a token is there already. */
  lemma {:induction false} DrainBlocksExactlyWhen(w: World, requests: seq<Request>)
    requires !w.blocked
    ensures var waking := WakingRequests(ModeOf(w.state), requests) + if w.token then 1 else 0;
            var drained := Drain(w, requests).world;
            && (drained.token <==> waking >= 1)
            && (drained.blocked <==> waking >= 2)
            && (!drained.blocked ==> ModeOf(drained.state) == ModeAfter(ModeOf(w.state), requests))
  {
    hide HandleRequest, ModeOf, NextMode, IsWaking;
    if requests != [] {
      var before := requests[..|requests| - 1];
      DrainBlocksExactlyWhen(w, before);
      if !Drain(w, before).world.blocked {
        RequestEffect(Drain(w, before).world, requests[|requests| - 1]);
        PreemptiveMode(Drain(w, before).world.state);
      }
    }
  }

  lemma PreemptiveMode(s: State)
    ensures ModeOf(s).Preemptive? <==> s.IsPreemptive()
  {
  }

  /** Replies come exactly as far as the queue is handled without blocking. */
  lemma {:induction false} AnsweredAsFarAsHandled(w: World, requests: seq<Request>, k: nat)
    requires !w.blocked && k <= |requests|
    ensures |Drain(w, requests).replies| >= k <==> !Drain(w, requests[..k]).world.blocked
  {
    hide HandleRequest;
    EachIsAnsweredInKind(w, requests);
    if k == |requests| {
      assert requests[..k] == requests;
      if Drain(w, requests).world.blocked {
        var before, last := requests[..k - 1], requests[k - 1];
        EachIsAnsweredInKind(w, before);
        if !Drain(w, before).world.blocked {
          RequestReply(Drain(w, before).world, last);
        }
      }
    } else {
      var before := requests[..|requests| - 1];
      AnsweredAsFarAsHandled(w, before, k);
      assert before[..k] == requests[..k];
      if !Drain(w, before).world.blocked {
        EachIsAnsweredInKind(w, before);
        AnsweredAsFarAsHandled(w, before, |before|);
      }
    }
  }

  /** While the machine waits, a request that finds a token posted is dropped, as the token ends the wait; those
      behind it are left for the next turn. All are answered exactly if no two of them wake the machine. */
  lemma WaitAnswersAllExactlyWhen(w: World, c: Choice)
    requires !w.blocked && !w.token
    ensures |Wait(w, c).replies| == |c.waiting| <==> WakingRequests(ModeOf(w.state), c.waiting) < 2
    ensures !Wait(w, c).world.blocked
  {
    hide Drain, WakingRequests;
    EachIsAnsweredInKind(w, c.waiting);
    DrainBlocksExactlyWhen(w, c.waiting);
    AnsweredAsFarAsHandled(w, c.waiting, |c.waiting|);
    assert c.waiting[..|c.waiting|] == c.waiting;
  }

  // ---- A token without its state ----

  /** The state a waking request asks for. */
  function Requested(r: Request): State
    requires IsWaking(r)
  {
    match r.message
    case LocalInstall(file) => PrepareLocalInstall(file)
    case RemoteInstall(url) => DirectDownload(url)
    case ProbeServer(_) => if r.answer.Update? then Validation(r.answer.package, r.answer.sign, true) else EntryPoint
  }

  /** A waking request posts its token in any case; the state it asks for takes effect exactly if the client
      still listens and, for a probe, the time of the poll is saved. */
  lemma RequestTakesEffectExactlyWhen(w: World, r: Request)
    requires !w.blocked && !w.token && Wakes(w, r)
    ensures var h := HandleRequest(w, r).world;
            var takesEffect := r.listening && (r.message.ProbeServer? && w.store.mem.persistent ==> r.writes);
            && h.token && !h.blocked
            && h.state == (if takesEffect then Requested(r) else w.state)
  {
    match r.message
    case ProbeServer(server) =>
      var asked := if server.Some? then w.(store := w.store.(mem := w.store.mem.(server := server))) else w;
      assert HandleRequest(w, r) == ProbeOnRequest(asked, r);
    case LocalInstall(_) =>
    case RemoteInstall(_) =>
  }

  /** Parked, at the entry point, polling, probing or validating, a machine without a token heeds an install a
      client asks for and listens to: it is woken, and the package is prepared or fetched. */
  lemma IdleStatesHeedInstalls(w: World, r: Request)
    requires !w.blocked && !w.token && r.listening
    requires w.state.Park? || w.state.EntryPoint? || w.state.Poll? || w.state.Probe? || w.state.Validation?
    requires r.message.LocalInstall? || r.message.RemoteInstall?
    ensures var next := if r.message.LocalInstall? then PrepareLocalInstall(r.message.file)
                        else DirectDownload(r.message.url);
            HandleRequest(w, r).world == w.(state := next, token := true)
  {
  }

  /** And it heeds a probe the server answers, once the time is saved: the answer takes effect, and the custom
      server stays for what follows. */
  lemma IdleStatesHeedProbes(w: World, r: Request)
    requires !w.blocked && !w.token && r.listening && (w.store.mem.persistent ==> r.writes)
    requires w.state.Park? || w.state.EntryPoint? || w.state.Poll? || w.state.Probe? || w.state.Validation?
    requires r.message.ProbeServer? && (r.answer.NoUpdate? || r.answer.Update?)
    ensures var next := if r.answer.NoUpdate? then EntryPoint else Validation(r.answer.package, r.answer.sign, true);
            var server := if r.message.server.Some? then r.message.server else w.store.mem.server;
            var mem := w.store.mem.(server := server, last := r.now);
            var disk := if mem.persistent then Some(mem) else w.store.disk;
            && HandleRequest(w, r).world == w.(state := next, token := true, store := Store(mem, disk))
            && HandleRequest(w, r).trail == [Durably(HandleRequest(w, r).world)]
  {
  }
}
