/**
 The state machine of the agent (updatehub/src/states), one step at a time.

 `Step` says what one turn of the main loop does to the world, for one outcome of everything the
 agent does not control: callbacks, the server, scripts, files, the clock and the requests that
 come in. Besides the new world it gives the trail: what was on durable storage after each durable
 write on the way, which is what a power cut can leave behind.
 */
module Machine {
  import opened Backoff
  import opened Packages
  import opened SettingsStore
  import opened Sorting
  import opened Wrappers

  // ---- The world ----

  datatype Signature = Signature(text: string)

  /** What the device is configured with. `verified` are the packages its key accepts, with their signatures. */
  datatype Env = Env(
    hasKey: bool, verified: set<(Signature, Package)>, hardware: string, modes: set<string>,
    interval: int, polling: bool)

  datatype State =
    | Park
    | EntryPoint
    | Poll
    | Probe
    | Validation(package: Package, sign: Option<Signature>, requireDownload: bool)
    | Download(package: Package, sign: Option<Signature>)
    | Install(package: Package)
    | Reboot(package: Package)
    | DirectDownload(url: string)
    | PrepareLocalInstall(file: string)
    | Error
  {
    predicate IsPreemptive() {
      Park? || EntryPoint? || Poll? || Probe? || Validation?
    }

    predicate IsHandlingDownload() {
      Download? || DirectDownload?
    }
  }

  /** What an installation set holds: what it held when it last booted, part of a package, or all of one. */
  datatype Image = Intact | Torn | Installed(uid: string)

  datatype Images = Images(a: Image, b: Image)
  {
    function Of(target: InstallSet): Image {
      if target.A? then a else b
    }

    function With(target: InstallSet, image: Image): Images {
      if target.A? then this.(a := image) else this.(b := image)
    }
  }

  datatype Write = Write(target: InstallSet, written: Object)

  /** `writes` are the objects written since boot; `token` is the wake-up message; `blocked` is a machine
      waiting for ever to post a second one. */
  datatype World = World(
    booted: InstallSet, flag: InstallSet, store: Store, images: Images, writes: seq<Write>,
    dir: Directory, state: State, token: bool, blocked: bool)

  /** What survives a power cut. */
  datatype Durable = Durable(flag: InstallSet, disk: Option<Settings>, images: Images)

  function Durably(w: World): Durable {
    Durable(w.flag, w.store.disk, w.images)
  }

  // ---- What the agent does not control ----

  datatype Callback = Continue | Cancel | Failed

  datatype Answer =
    | UrlError
    | Unreachable
    | NoUpdate
    | ExtraPoll(seconds: int)
    | Update(package: Package, sign: Option<Signature>)

  datatype Message =
    | Info
    | ProbeServer(server: Option<string>)
    | AbortDownload
    | LocalInstall(file: string)
    | RemoteInstall(url: string)

  /** A request, with what happens while it is handled; `listening` tells whether the client still waits. */
  datatype Request = Request(message: Message, answer: Answer, now: int, writes: bool, listening: bool)

  /** The outcome of everything uncertain in one step. `installs` objects install before one fails. */
  datatype Choice = Choice(
    pending: seq<Request>, during: seq<Request>, waiting: seq<Request>,
    callback: Callback, answer: Answer, now: int, writes: bool, writesAgain: bool,
    scripts: bool, swaps: bool, unmet: set<Object>, installs: nat,
    dir: Directory, fetched: bool, prepared: Option<(Package, Signature)>, reboots: bool)

  datatype Transition = Immediate | Delayed(nanos: int) | Never

  datatype Outcome = Outcome(world: World, transition: Transition, trail: seq<Durable>)

  // ---- Changing the settings ----

  /** The world after a setter saved its change. */
  function WithSettings(w: World, mem: Settings, writes: bool): World {
    w.(store := Save(w.store.(mem := mem), writes))
  }

  predicate SettingsSave(w: World, mem: Settings, writes: bool) {
    Saves(w.store.(mem := mem), writes)
  }

  function Go(w: World, state: State, trail: seq<Durable>): Outcome {
    Outcome(w.(state := state), Immediate, trail)
  }

  /** A handler that returns an error leads to the error state at once. */
  function Fail(w: World, trail: seq<Durable>): Outcome {
    Go(w, Error, trail)
  }

  // ---- Handlers ----

  function HandleEntryPoint(env: Env, w: World, c: Choice): Outcome {
    if w.store.mem.now then
      var mem := w.store.mem.(now := false);
      var w' := WithSettings(w, mem, c.writes);
      if SettingsSave(w, mem, c.writes) then Go(w', Probe, [Durably(w')]) else Fail(w', [Durably(w')])
    else
      var w' := w.(store := w.store.(mem := w.store.mem.(server := None)));
      Go(w', if env.polling then Poll else Park, [])
  }

  function HandlePark(w: World): Outcome {
    Outcome(w, Never, [])
  }

  /** The probe is due if the last one is a whole second more than an interval ago, or in the future. */
  function HandlePoll(env: Env, w: World, c: Choice): Outcome {
    var delay := env.interval - (c.now - w.store.mem.last);
    Outcome(w.(state := Probe), if delay > env.interval || WholeSeconds(delay) < 0 then Immediate else Delayed(delay), [])
  }

  function HandleProbe(env: Env, w: World, c: Choice): Outcome {
    var mem := w.store.mem;
    match c.answer
    case UrlError => Fail(w, [])
    case Unreachable =>
      var w' := w.(store := w.store.(mem := mem.(retries := mem.retries + 1)), state := Probe);
      Outcome(w', Delayed(RetryDelay(mem.retries + 1, env.interval) * NANOS_PER_SECOND), [])
    case ExtraPoll(seconds) =>
      Outcome(w.(store := w.store.(mem := mem.(retries := 0)), state := Probe), Delayed(seconds * NANOS_PER_SECOND), [])
    case NoUpdate =>
      Polled(w, c, EntryPoint)
    case Update(package, sign) =>
      Polled(w, c, Validation(package, sign, true))
  }

  /** The probe was answered: failures are forgotten and its time is stored. */
  function Polled(w: World, c: Choice, next: State): Outcome {
    var mem := w.store.mem.(retries := 0, last := c.now);
    var w' := WithSettings(w, mem, c.writes);
    if SettingsSave(w, mem, c.writes) then Go(w', next, [Durably(w')]) else Fail(w', [Durably(w')])
  }

  function SkipProbe(w: World, c: Choice): Outcome {
    var w' := WithSettings(w, w.store.mem.(last := c.now), c.writes);
    Go(w', EntryPoint, [Durably(w')])
  }

  predicate SignatureAccepted(env: Env, package: Package, sign: Option<Signature>) {
    env.hasKey ==> sign.Some? && (sign.value, package) in env.verified
  }

  predicate ModesSupported(env: Env, objects: seq<Object>) {
    forall i | 0 <= i < |objects| :: objects[i].mode in env.modes
  }

  predicate RequirementsMet(c: Choice, objects: seq<Object>) {
    forall i | 0 <= i < |objects| :: objects[i] !in c.unmet
  }

  predicate AllReady(objects: seq<Object>, dir: Directory) {
    forall i | 0 <= i < |objects| && !objects[i].remote :: IsReady(objects[i], dir)
  }

  function Target(w: World, c: Choice): Option<InstallSet> {
    InactiveSet(w.store, w.flag, c.scripts)
  }

  function HandleValidation(env: Env, w: World, c: Choice): Outcome
    requires w.state.Validation?
  {
    var package, sign := w.state.package, w.state.sign;
    if !SignatureAccepted(env, package, sign) then Fail(w, [])
    else if Target(w, c).None? then Fail(w, [])
    else
      var objects := package.Objects(Target(w, c).value);
      if !package.CompatibleWith(env.hardware) || !ModesSupported(env, objects) || !RequirementsMet(c, objects) then
        Fail(w, [])
      else if w.store.mem.applied == Some(package.uid) then Go(w, EntryPoint, [])
      else if w.state.requireDownload then Go(w, Download(package, sign), [])
      else if AllReady(objects, w.dir) then Go(w, Install(package), [])
      else Fail(w, [])
  }

  /** Downloading goes on until it ends or a request replaces the state. */
  function HandleDownload(w: World, c: Choice): Outcome
    requires w.state.Download?
  {
    var served := Drain(w, UntilReplaced(w, c.during));
    var w' := served.world.(dir := c.dir);
    if w'.state != w.state then Outcome(w', Immediate, served.trail)
    else if c.fetched then Go(w', Validation(w.state.package, w.state.sign, false), served.trail)
    else Fail(w', served.trail)
  }

  function HandleDirectDownload(w: World, c: Choice): Outcome
    requires w.state.DirectDownload?
  {
    var served := Drain(w, UntilReplaced(w, c.during));
    var w' := served.world.(dir := c.dir);
    if w'.state != w.state then Outcome(w', Immediate, served.trail)
    else if c.fetched then Go(w', PrepareLocalInstall("fetched_pkg"), served.trail)
    else Fail(w', served.trail)
  }

  /** The requests handled while downloading: none after the one that replaces the state. */
  function UntilReplaced(w: World, requests: seq<Request>): seq<Request> {
    if requests == [] then []
    else
      var before := UntilReplaced(w, requests[..|requests| - 1]);
      if Drain(w, before).world.state != w.state then before else before + [requests[|requests| - 1]]
  }

  function HandlePrepareLocalInstall(w: World, c: Choice): Outcome {
    var w' := w.(dir := c.dir);
    if c.prepared.None? then Fail(w', [])
    else Go(w', Validation(c.prepared.value.0, Some(c.prepared.value.1), false), [])
  }

  function LargerFirst(): (Object, Object) -> bool {
    (a: Object, b: Object) => a.size >= b.size
  }

  /** Larger objects come first, so boot loaders and their environment are written late. */
  function InstallOrder(package: Package, target: InstallSet): seq<Object> {
    Sort(LargerFirst(), package.Objects(target))
  }

  /** The world once an object is being written to `target`. */
  function WriteObject(w: World, target: InstallSet, o: Object): World {
    w.(images := w.images.With(target, Torn), writes := w.writes + [Write(target, o)])
  }

  /** The world after these objects were begun, and what was durable on the way. */
  function WriteObjects(w: World, target: InstallSet, objects: seq<Object>): (r: (World, seq<Durable>))
    ensures r.0 == w.(images := if objects == [] then w.images else w.images.With(target, Torn), writes := r.0.writes)
    ensures |r.0.writes| == |w.writes| + |objects| && r.0.writes[..|w.writes|] == w.writes
    ensures forall i | 0 <= i < |objects| :: r.0.writes[|w.writes| + i] == Write(target, objects[i])
    ensures |r.1| == |objects| && forall d | d in r.1 :: d == Durable(w.flag, w.store.disk, w.images.With(target, Torn))
  {
    if objects == [] then (w, [])
    else
      var (before, trail) := WriteObjects(w, target, objects[..|objects| - 1]);
      var w' := WriteObject(before, target, objects[|objects| - 1]);
      (w', trail + [Durably(w')])
  }

  /** The object loop: whether every object installed, and what was durable on the way. */
  function InstallObjects(w: World, c: Choice, target: InstallSet): (r: (World, bool, seq<Durable>))
    requires w.state.Install?
    ensures r.1 <==> c.installs >= |InstallOrder(w.state.package, target)|
    ensures r.0 == w.(images := r.0.images, writes := r.0.writes)
    ensures r.0.images.Of(target.Other()) == w.images.Of(target.Other())
  {
    var objects := InstallOrder(w.state.package, target);
    if c.installs < |objects| then
      var (w', trail) := WriteObjects(w, target, objects[..c.installs + 1]);
      (w', false, trail)
    else
      var (w', trail) := WriteObjects(w, target, objects);
      (if objects == [] then w' else w'.(images := w'.images.With(target, Installed(w.state.package.uid))), true, trail)
  }

  function HandleInstall(w: World, c: Choice): Outcome
    requires w.state.Install?
  {
    if Target(w, c).None? then Fail(w, [])
    else
      var target := Target(w, c).value;
      var (w', ok, trail) := InstallObjects(w, c, target);
      if ok then MarkAndSwap(w', c, target, trail) else Fail(w', trail)
  }

  /** The package is marked as applied, then as pending, and only then the flag is swapped. */
  function MarkAndSwap(w: World, c: Choice, target: InstallSet, trail: seq<Durable>): Outcome
    requires w.state.Install?
  {
    var package := w.state.package;
    var applied := w.store.mem.(applied := Some(package.uid));
    var w1 := WithSettings(w, applied, c.writes);
    var trail1 := trail + [Durably(w1)];
    if !SettingsSave(w, applied, c.writes) then Fail(w1, trail1)
    else
      var pending := applied.(upgrade := Some(target));
      var w2 := WithSettings(w1, pending, c.writesAgain);
      var trail2 := trail1 + [Durably(w2)];
      if !SettingsSave(w1, pending, c.writesAgain) || !c.swaps then Fail(w2, trail2)
      else
        var w3 := w2.(flag := w2.flag.Other());
        Go(w3, Reboot(package), trail2 + [Durably(w3)])
  }

  function HandleReboot(w: World, c: Choice): Outcome {
    if c.reboots then Go(w, EntryPoint, []) else Fail(w, [])
  }

  /** The dispatch of one step. Callbacks can cancel some states; cancelling a probe still stores its time. */
  function Dispatch(env: Env, w: World, c: Choice): Outcome {
    match w.state
    case Park => HandlePark(w)
    case EntryPoint => HandleEntryPoint(env, w, c)
    case Poll => HandlePoll(env, w, c)
    case Validation(_, _, _) => HandleValidation(env, w, c)
    case DirectDownload(_) => HandleDirectDownload(w, c)
    case Probe => if c.callback.Continue? then HandleProbe(env, w, c) else SkipProbe(w, c)
    case PrepareLocalInstall(_) => if c.callback.Continue? then HandlePrepareLocalInstall(w, c) else Go(w, EntryPoint, [])
    case Error => Go(w, EntryPoint, [])
    case Download(_, _) => if c.callback.Continue? then HandleDownload(w, c) else NotContinued(w, c)
    case Install(_) => if c.callback.Continue? then HandleInstall(w, c) else NotContinued(w, c)
    case Reboot(_) => if c.callback.Continue? then HandleReboot(w, c) else NotContinued(w, c)
  }

  /** In the reported states a callback that fails is an error, one that cancels is not. */
  function NotContinued(w: World, c: Choice): Outcome {
    if c.callback.Cancel? then Go(w, EntryPoint, []) else Fail(w, [])
  }

  // ---- Requests ----

  datatype ProbeReply = Available | Unavailable | TryAgain(seconds: int) | Busy(state: State)

  datatype Reply =
    | InfoReply(state: State, settings: Settings)
    | ProbeServerReply(reply: ProbeReply)
    | AbortReply(accepted: bool)
    | LocalReply(accepted: bool, state: State)
    | RemoteReply(accepted: bool, state: State)
    | ErrorReply

  /** One request handled; without a reply the handler is still waiting to post its token. */
  datatype Handled = Handled(world: World, reply: Option<Reply>, trail: seq<Durable>)

  /** A request is answered, and its new state takes effect if the client is still there to hear it. */
  function Answered(w: World, r: Request, reply: Reply, next: State, trail: seq<Durable>): Handled {
    Handled(if r.listening then w.(state := next) else w, Some(reply), trail)
  }

  /** Posts the wake-up token; the channel holds one, so a second post waits for ever. */
  function Post(w: World): World {
    if w.token then w.(blocked := true) else w.(token := true)
  }

  function HandleRequest(w: World, r: Request): Handled {
    match r.message
    case Info => Answered(w, r, InfoReply(w.state, w.store.mem), w.state, [])
    case ProbeServer(server) =>
      if !w.state.IsPreemptive() then Answered(w, r, ProbeServerReply(Busy(w.state)), w.state, [])
      else ProbeOnRequest(if server.Some? then w.(store := w.store.(mem := w.store.mem.(server := server))) else w, r)
    case AbortDownload =>
      Answered(w, r, AbortReply(w.state.IsHandlingDownload()),
               if w.state.IsHandlingDownload() then EntryPoint else w.state, [])
    case LocalInstall(file) =>
      if !w.state.IsPreemptive() then Answered(w, r, LocalReply(false, w.state), w.state, [])
      else if Post(w).blocked then Handled(Post(w), None, [])
      else Answered(Post(w), r, LocalReply(true, w.state), PrepareLocalInstall(file), [])
    case RemoteInstall(url) =>
      if !w.state.IsPreemptive() then Answered(w, r, RemoteReply(false, w.state), w.state, [])
      else if Post(w).blocked then Handled(Post(w), None, [])
      else Answered(Post(w), r, RemoteReply(true, w.state), DirectDownload(url), [])
  }

  function ProbeOnRequest(w: World, r: Request): Handled {
    match r.answer
    case UrlError => Answered(w, r, ErrorReply, w.state, [])
    case Unreachable => Answered(w, r, ErrorReply, w.state, [])
    case ExtraPoll(seconds) => Answered(w, r, ProbeServerReply(TryAgain(seconds)), w.state, [])
    case NoUpdate => PolledOnRequest(w, r, Unavailable, EntryPoint)
    case Update(package, sign) => PolledOnRequest(w, r, Available, Validation(package, sign, true))
  }

  function PolledOnRequest(w: World, r: Request, reply: ProbeReply, next: State): Handled {
    if Post(w).blocked then Handled(Post(w), None, [])
    else
      var mem := w.store.mem.(last := r.now);
      var w' := WithSettings(Post(w), mem, r.writes);
      if SettingsSave(w, mem, r.writes) then Answered(w', r, ProbeServerReply(reply), next, [Durably(w')])
      else Answered(w', r, ErrorReply, w.state, [Durably(w')])
  }

  datatype Drained = Drained(world: World, replies: seq<Reply>, trail: seq<Durable>)

  /** Requests are handled in turn; one that blocks is the last. */
  function Drain(w: World, requests: seq<Request>): Drained {
    if requests == [] then Drained(w, [], [])
    else
      var before := Drain(w, requests[..|requests| - 1]);
      if before.world.blocked then before
      else
        var h := HandleRequest(before.world, requests[|requests| - 1]);
        Drained(h.world, before.replies + if h.reply.Some? then [h.reply.value] else [], before.trail + h.trail)
  }

  // ---- The main loop ----

  /** One turn: discharge the token, handle what is pending, handle the state, and wait if told to. */
  function Step(env: Env, w: World, c: Choice): Outcome {
    if w.blocked then Outcome(w, Never, [])
    else
      var drained := Drain(w.(token := false), c.pending);
      if drained.world.blocked then Outcome(drained.world, Never, drained.trail)
      else
        var handled := Dispatch(env, drained.world, c);
        var trail := drained.trail + handled.trail;
        if handled.transition.Immediate? then Outcome(handled.world, Immediate, trail)
        else
          var waited := Wait(handled.world, c);
          Outcome(waited.world, handled.transition, trail + waited.trail)
  }

  /** A token wakes the machine at once; otherwise requests are handled while it waits. A request that
      cannot post its token is dropped, as the first token ends the wait. */
  function Wait(w: World, c: Choice): Drained {
    if w.token then Drained(w.(token := false), [], [])
    else
      var waited := Drain(w, c.waiting);
      waited.(world := waited.world.(token := false, blocked := false))
  }

  function Run(env: Env, w: World, choices: seq<Choice>): World {
    if choices == [] then w
    else Step(env, Run(env, w, choices[..|choices| - 1]), choices[|choices| - 1]).world
  }

  /** Everything that was durable at some point of a run. */
  function RunTrail(env: Env, w: World, choices: seq<Choice>): seq<Durable> {
    if choices == [] then [Durably(w)]
    else
      RunTrail(env, w, choices[..|choices| - 1])
      + Step(env, Run(env, w, choices[..|choices| - 1]), choices[|choices| - 1]).trail
  }

  /** The world as the handler of the step finds it. */
  function AtDispatch(w: World, c: Choice): World {
    Drain(w.(token := false), c.pending).world
  }
}
