/** Runs that show what can happen: a client asks for a local install, which goes on to be installed. */
module ExampleRuns {
  import opened Backoff
  import opened Machine
  import opened Packages
  import opened Runs
  import opened Wrappers

  /** Installs of the run that completed. */
  function CompletedInstalls(env: Env, w: World, choices: seq<Choice>): nat {
    if choices == [] then 0
    else
      var before, c := Run(env, w, choices[..|choices| - 1]), choices[|choices| - 1];
      CompletedInstalls(env, w, choices[..|choices| - 1])
      + if Installs(before, c) && Step(env, before, c).world.state.Reboot? then 1 else 0
  }

  lemma OneMoreChoice(env: Env, w: World, choices: seq<Choice>, c: Choice)
    ensures var before, more := Run(env, w, choices), choices + [c];
            && Run(env, w, more) == Step(env, before, c).world
            && RunTrail(env, w, more) == RunTrail(env, w, choices) + Step(env, before, c).trail
            && CompletedInstalls(env, w, more) == CompletedInstalls(env, w, choices)
               + if Installs(before, c) && Step(env, before, c).world.state.Reboot? then 1 else 0
  {
    hide Step, Installs;
    assert (choices + [c])[..|choices|] == choices;
  }

  function ExampleEnv(): Env {
    Env(false, {}, "", {"raw-delta"}, 60 * NANOS_PER_SECOND, true)
  }

  const PAYLOAD := Object("object", "digest", 0, "raw-delta", true)

  function ExamplePackage(uid: string): Package {
    Package(uid, Any, [PAYLOAD], [PAYLOAD])
  }

  function Prepare(uid: string): Choice {
    NoChoice().(
      pending := [Request(LocalInstall("package"), Unreachable, 0, true, true)],
      prepared := Some((ExamplePackage(uid), Signature(""))))
  }

  /** A client asks for a local install, and it is accepted. */
  lemma LocalInstallBegins(w: World, choices: seq<Choice>, uid: string)
    requires var at := Run(ExampleEnv(), w, choices);
             at.state.EntryPoint? && !at.token && !at.blocked && at.store.mem.applied != Some(uid)
    ensures var at, more := Run(ExampleEnv(), w, choices), choices + [Prepare(uid)] + [NoChoice()];
            && Run(ExampleEnv(), w, more) == at.(state := Install(ExamplePackage(uid)), token := false, dir := map[])
            && CompletedInstalls(ExampleEnv(), w, more) == CompletedInstalls(ExampleEnv(), w, choices)
  {
    hide Step, Installs, Run, RunTrail, CompletedInstalls;
    var env, at := ExampleEnv(), Run(ExampleEnv(), w, choices);
    var request := Request(LocalInstall("package"), Unreachable, 0, true, true);
    var prepared := LocalInstallIsPrepared(env, at, Prepare(uid), request, ExamplePackage(uid));
    OneMoreChoice(env, w, choices, Prepare(uid));
    var accepted := LocalInstallIsAccepted(env, prepared, ExamplePackage(uid), PAYLOAD);
    OneMoreChoice(env, w, choices + [Prepare(uid)], NoChoice());
  }

  /** A callback cancels the reboot. */
  lemma RebootIsCancelled(env: Env, w: World)
    requires w.state.Reboot? && !w.token && !w.blocked
    ensures Step(env, w, NoChoice().(callback := Cancel)).world == w.(state := EntryPoint)
  {
    NothingPending(w, NoChoice().(callback := Cancel));
  }

  /** A package that is not the applied one. */
  function FreshUid(w: World): (uid: string)
    ensures w.store.mem.applied != Some(uid)
  {
    var uid := if w.store.mem.applied.Some? then w.store.mem.applied.value + "+" else "";
    assert w.store.mem.applied.Some? ==> |uid| == |w.store.mem.applied.value| + 1;
    uid
  }
}
