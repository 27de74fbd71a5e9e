/**
 The transitions of the state machine. The diagram in the documentation (updatehub/src/states/mod.rs)
 leaves out validation, local installs and errors; this one has them all.
 */
module Diagram {
  import opened Backoff
  import opened InstallGate
  import opened Machine
  import opened Packages
  import opened Requests
  import opened Runs
  import opened SettingsStore
  import opened Wrappers

  datatype Kind =
    | ParkKind | EntryPointKind | PollKind | ProbeKind | ValidationKind | DownloadKind | InstallKind
    | RebootKind | DirectDownloadKind | PrepareKind | ErrorKind

  function KindOf(s: State): Kind {
    match s
    case Park => ParkKind
    case EntryPoint => EntryPointKind
    case Poll => PollKind
    case Probe => ProbeKind
    case Validation(_, _, _) => ValidationKind
    case Download(_, _) => DownloadKind
    case Install(_) => InstallKind
    case Reboot(_) => RebootKind
    case DirectDownload(_) => DirectDownloadKind
    case PrepareLocalInstall(_) => PrepareKind
    case Error => ErrorKind
  }

  function Successors(kind: Kind): set<Kind> {
    match kind
    case ParkKind => {ParkKind}
    case EntryPointKind => {ParkKind, PollKind, ProbeKind, ErrorKind}
    case PollKind => {ProbeKind}
    case ProbeKind => {ProbeKind, EntryPointKind, ValidationKind, ErrorKind}
    case ValidationKind => {EntryPointKind, DownloadKind, InstallKind, ErrorKind}
    case DownloadKind => {EntryPointKind, ValidationKind, ErrorKind}
    case InstallKind => {EntryPointKind, RebootKind, ErrorKind}
    case RebootKind => {EntryPointKind, ErrorKind}
    case DirectDownloadKind => {EntryPointKind, PrepareKind, ErrorKind}
    case PrepareKind => {EntryPointKind, ValidationKind, ErrorKind}
    case ErrorKind => {EntryPointKind}
  }

  ghost predicate Moves(env: Env, w: World, c: Choice, from: Kind, to: Kind) {
    !w.blocked && KindOf(w.state) == from && KindOf(Dispatch(env, w, c).world.state) == to
  }

  /** One state is followed by another, for some environment, world and choice, exactly as drawn. */
  lemma DiagramIsExact(from: Kind, to: Kind)
    ensures (exists env, w, c :: Moves(env, w, c, from, to)) <==> to in Successors(from)
  {
    if to in Successors(from) {
      Example(from, to);
    }
    forall env, w, c | Moves(env, w, c, from, to)
      ensures to in Successors(from)
    {
      OnlyAsDrawn(env, w, c);
    }
  }

  lemma OnlyAsDrawn(env: Env, w: World, c: Choice)
    requires !w.blocked
    ensures KindOf(Dispatch(env, w, c).world.state) in Successors(KindOf(w.state))
  {
    hide HandleInstall, HandleDownload, HandleDirectDownload, HandleValidation, HandleProbe, HandleEntryPoint;
    if w.state.Install? {
      InstallEnds(w, c);
    } else if w.state.IsHandlingDownload() {
      DownloadEnds(w, c);
    } else if w.state.Validation? {
      ValidationAcceptsExactlyWhen(env, w, c);
    } else {
      ProbeAsDrawn(env, w, c);
      EntryPointAsDrawn(env, w, c);
    }
  }

  lemma ProbeAsDrawn(env: Env, w: World, c: Choice)
    ensures KindOf(HandleProbe(env, w, c).world.state) in Successors(ProbeKind)
  {
    hide WithSettings, SettingsSave;
  }

  lemma EntryPointAsDrawn(env: Env, w: World, c: Choice)
    ensures KindOf(HandleEntryPoint(env, w, c).world.state) in Successors(EntryPointKind)
  {
    hide WithSettings, SettingsSave;
  }

  // ---- An example of every transition ----

  const EXAMPLE_PACKAGE := Package("uid", Any, [], [])

  function ExampleEnv(to: Kind): Env {
    Env(false, {}, "", {}, 60 * NANOS_PER_SECOND, !to.ParkKind?)
  }

  function ExampleState(from: Kind, to: Kind): State {
    match from
    case ParkKind => Park
    case EntryPointKind => EntryPoint
    case PollKind => Poll
    case ProbeKind => Probe
    case ValidationKind => Validation(EXAMPLE_PACKAGE, None, to.DownloadKind?)
    case DownloadKind => Download(EXAMPLE_PACKAGE, None)
    case InstallKind => Install(EXAMPLE_PACKAGE)
    case RebootKind => Reboot(EXAMPLE_PACKAGE)
    case DirectDownloadKind => DirectDownload("url")
    case PrepareKind => PrepareLocalInstall("file")
    case ErrorKind => Error
  }

  /** Settings that force a probe where one is to come, or that hold the package as applied. */
  function ExampleWorld(from: Kind, to: Kind): World {
    var forced := from.EntryPointKind? && (to.ProbeKind? || to.ErrorKind?);
    var applied := if from.ValidationKind? && to.EntryPointKind? then Some("uid") else None;
    var mem := DEFAULT_SETTINGS.(now := forced, applied := applied, persistent := true);
    World(A, A, Store(mem, None), Images(Intact, Intact), [], map[], ExampleState(from, to), false, false)
  }

  function ExampleChoice(from: Kind, to: Kind): Choice {
    if to.ErrorKind? then
      NoChoice().(
        answer := UrlError, writes := false, scripts := false, fetched := false, prepared := None, reboots := false)
    else
      NoChoice().(
        callback := if to.EntryPointKind? && from !in {EntryPointKind, ProbeKind} then Cancel else Continue,
        during := if to.EntryPointKind? then [Request(AbortDownload, Unreachable, 0, true, true)] else [],
        answer := if to.ValidationKind? then Update(EXAMPLE_PACKAGE, None)
                  else if to.EntryPointKind? then NoUpdate
                  else Unreachable,
        prepared := Some((EXAMPLE_PACKAGE, Signature(""))))
  }

  ghost predicate Shown(from: Kind, to: Kind) {
    Moves(ExampleEnv(to), ExampleWorld(from, to), ExampleChoice(from, to), from, to)
  }

  lemma Example(from: Kind, to: Kind)
    requires to in Successors(from)
    ensures Shown(from, to)
  {
    hide Shown;
    match from
    case EntryPointKind => EntryPointExample(to);
    case ProbeKind => ProbeExample(to);
    case ValidationKind => ValidationExample(to);
    case DirectDownloadKind => DirectDownloadExample(to);
    case DownloadKind => DownloadExample(to);
    case InstallKind => InstallExample(to);
    case ParkKind => PlainExample(from, to);
    case PollKind => PlainExample(from, to);
    case PrepareKind => PrepareExample(to);
    case RebootKind => PlainExample(from, to);
    case ErrorKind => PlainExample(from, to);
  }

  lemma PlainExample(from: Kind, to: Kind)
    requires from in {ParkKind, PollKind, RebootKind, ErrorKind} && to in Successors(from)
    ensures Shown(from, to)
  {
  }

  lemma PrepareExample(to: Kind)
    requires to in Successors(PrepareKind)
    ensures Shown(PrepareKind, to)
  {
    assert ExampleWorld(PrepareKind, to).state == PrepareLocalInstall("file");
  }

  lemma EntryPointExample(to: Kind)
    requires to in Successors(EntryPointKind)
    ensures Shown(EntryPointKind, to)
  {
  }

  lemma ProbeExample(to: Kind)
    requires to in Successors(ProbeKind)
    ensures Shown(ProbeKind, to)
  {
  }

  lemma ValidationExample(to: Kind)
    requires to in Successors(ValidationKind)
    ensures Shown(ValidationKind, to)
  {
    var w, c := ExampleWorld(ValidationKind, to), ExampleChoice(ValidationKind, to);
    assert EXAMPLE_PACKAGE.Objects(B) == [];
    assert Target(w, c) == if to.ErrorKind? then None else Some(B);
    hide Target, HandleValidation;
    ValidationAcceptsExactlyWhen(ExampleEnv(to), w, c);
  }

  lemma InstallExample(to: Kind)
    requires to in Successors(InstallKind)
    ensures Shown(InstallKind, to)
  {
    hide InstallObjects, MarkAndSwap;
    var w, c := ExampleWorld(InstallKind, to), ExampleChoice(InstallKind, to);
    if to.RebootKind? {
      assert |InstallOrder(EXAMPLE_PACKAGE, B)| == 0;
      var (w', ok, trail) := InstallObjects(w, c, B);
      MarksSaved(w', c, B, trail);
    }
  }

  lemma MarksSaved(w: World, c: Choice, target: InstallSet, trail: seq<Durable>)
    requires w.state.Install? && c.writes && c.writesAgain && c.swaps
    ensures MarkAndSwap(w, c, target, trail).world.state == Reboot(w.state.package)
  {
  }

  lemma DownloadExample(to: Kind)
    requires to in Successors(DownloadKind)
    ensures Shown(DownloadKind, to)
  {
  }

  lemma DirectDownloadExample(to: Kind)
    requires to in Successors(DirectDownloadKind)
    ensures Shown(DirectDownloadKind, to)
  {
    hide Drain, UntilReplaced;
    var w, c := ExampleWorld(DirectDownloadKind, to), ExampleChoice(DirectDownloadKind, to);
    OnlyAbortsEndADownload(w, c.during);
    if to.EntryPointKind? {
      assert c.during[0] in c.during && IsAbort(c.during[0]);
    }
  }
}
