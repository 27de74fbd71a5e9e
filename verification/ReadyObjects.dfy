/**
 What validation finds ready, after a download and after a local package was unpacked. A download is for the
 set the flag does not name; unpacking takes the objects of the set it names and cleans up for the other one.
 Validation looks at the set the settings name, if there is one.
 */
module ReadyObjects {
  import opened DownloadDir
  import opened InstallGate
  import opened Machine
  import opened Packages
  import opened Runs
  import opened Wrappers

  function AllObjects(package: Package): seq<Object> {
    package.objectsA + package.objectsB
  }

  lemma ObjectsAreAmongAll(package: Package, target: InstallSet)
    ensures forall o | o in package.Objects(target) :: o in AllObjects(package)
  {
  }

  predicate SharesDigest(o: Object, objects: seq<Object>) {
    exists p :: p in objects && p.sha256sum == o.sha256sum
  }

  /** Validation accepts what passes but for its objects, if these are ready. */
  lemma AcceptedExactlyWhenReady(env: Env, w: World, c: Choice, ready: Object -> bool)
    requires w.state.Validation? && Target(w, c).Some?
    requires forall o | o in w.state.package.Objects(Target(w, c).value) && !o.remote :: IsReady(o, w.dir) <==> ready(o)
    ensures HandleValidation(env, w, c).world.state.Install? <==>
            && !w.state.requireDownload && Suits(env, w, c, Target(w, c).value)
            && w.store.mem.applied != Some(w.state.package.uid)
            && forall o | o in w.state.package.Objects(Target(w, c).value) && !o.remote :: ready(o)
  {
    ValidationAcceptsExactlyWhen(env, w, c);
    hide HandleValidation, Suits;
  }

  // ---- After a download ----

  /** The directory once a download for a set succeeded, from a server that delivers what the package asks for. */
  ghost predicate Downloaded(
    package: Package, target: InstallSet, before: Directory, answers: seq<Delivery>, dir: Directory) {
    var clean := Survivors(package.Objects(target), before);
    var pending := PendingDownloads(package.Objects(target), clean);
    && |answers| >= |pending|
    && (dir, true) == Delivered(clean, pending, answers)
    && forall i | 0 <= i < |pending| ::
         answers[i].ok ==> Honest(AllObjects(package), pending[i].sha256sum, answers[i].left)
  }

  /** An object of the same digest had to be downloaded. */
  predicate Fetched(o: Object, objects: seq<Object>, clean: Directory) {
    exists p :: p in objects && NeedsDownload(p, clean) && p.sha256sum == o.sha256sum
  }

  lemma {:induction false} OthersAreLeft(dir: Directory, pending: seq<Pending>, answers: seq<Delivery>, name: string)
    requires |answers| >= |pending| && forall p | p in pending :: p.sha256sum != name
    ensures var after := Delivered(dir, pending, answers).0;
            (name in after <==> name in dir) && (name in dir ==> after[name] == dir[name])
  {
    if pending != [] {
      OthersAreLeft(dir, pending[..|pending| - 1], answers, name);
      assert pending[|pending| - 1] in pending;
    }
  }

  /** Any object of the package is ready after the download, exactly if the cleanup left it ready or an object of
      its digest was fetched. */
  lemma ReadyAfterDownloadExactlyWhen(
    package: Package, target: InstallSet, before: Directory, answers: seq<Delivery>, dir: Directory, o: Object)
    requires Downloaded(package, target, before, answers, dir) && o in AllObjects(package)
    ensures var objects := package.Objects(target); var clean := Survivors(objects, before);
            IsReady(o, dir) <==> IsReady(o, clean) || Fetched(o, objects, clean)
  {
    var objects := package.Objects(target);
    var clean := Survivors(objects, before);
    var pending := PendingDownloads(objects, clean);
    if p :| p in pending && p.sha256sum == o.sha256sum {
      PendingCoversWhatIsMissing(objects, clean, p);
      DeliveredHolds(AllObjects(package), clean, pending, answers, o);
    } else {
      OthersAreLeft(clean, pending, answers, o.sha256sum);
      if p :| p in objects && NeedsDownload(p, clean) && p.sha256sum == o.sha256sum {
        PendingCoversWhatIsMissing(objects, clean, Pending(p.filename, p.sha256sum));
        assert false;
      }
    }
  }

  /** So validation accepts a downloaded package exactly if it suits the device, is not the applied one, and each
      object of its target that must be was left ready or fetched. */
  lemma DownloadIsAcceptedExactlyWhen(env: Env, w: World, c: Choice, before: Directory, answers: seq<Delivery>)
    requires w.state.Validation? && Target(w, c).Some?
    requires Downloaded(w.state.package, w.flag.Other(), before, answers, w.dir)
    ensures var target, objects := Target(w, c).value, w.state.package.Objects(w.flag.Other());
            var clean := Survivors(objects, before);
            HandleValidation(env, w, c).world.state.Install? <==>
            && !w.state.requireDownload && Suits(env, w, c, target)
            && w.store.mem.applied != Some(w.state.package.uid)
            && forall o | o in w.state.package.Objects(target) && !o.remote ::
                 IsReady(o, clean) || Fetched(o, objects, clean)
  {
    var target, objects := Target(w, c).value, w.state.package.Objects(w.flag.Other());
    var clean := Survivors(objects, before);
    ObjectsAreAmongAll(w.state.package, target);
    forall o | o in w.state.package.Objects(target) && !o.remote
      ensures IsReady(o, w.dir) <==> IsReady(o, clean) || Fetched(o, objects, clean)
    {
      ReadyAfterDownloadExactlyWhen(w.state.package, w.flag.Other(), before, answers, w.dir, o);
    }
    AcceptedExactlyWhenReady(env, w, c, o => IsReady(o, clean) || Fetched(o, objects, clean));
  }

  /** While the sets agree every object is ready. */
  lemma DownloadForItsSetIsAccepted(env: Env, w: World, c: Choice, before: Directory, answers: seq<Delivery>)
    requires w.state.Validation? && Target(w, c) == Some(w.flag.Other()) && !w.state.requireDownload
    requires Downloaded(w.state.package, w.flag.Other(), before, answers, w.dir)
    requires Suits(env, w, c, w.flag.Other()) && w.store.mem.applied != Some(w.state.package.uid)
    ensures HandleValidation(env, w, c).world.state.Install?
  {
    DownloadIsAcceptedExactlyWhen(env, w, c, before, answers);
    hide HandleValidation, Suits, Downloaded;
  }

  /** While they differ, validation refuses a package whose target needs an object that the other set does not
      hold. */
  lemma DownloadForTheOtherSetIsRefused(
    env: Env, w: World, c: Choice, before: Directory, answers: seq<Delivery>, o: Object)
    requires w.state.Validation? && w.store.mem.upgrade == Some(w.flag)
    requires Downloaded(w.state.package, w.flag.Other(), before, answers, w.dir)
    requires o in w.state.package.Objects(w.flag) && !o.remote
    requires !SharesDigest(o, w.state.package.Objects(w.flag.Other()))
    requires o.sha256sum in before ==> before[o.sha256sum].isFile
    ensures !HandleValidation(env, w, c).world.state.Install?
  {
    var objects := w.state.package.Objects(w.flag.Other());
    DownloadIsAcceptedExactlyWhen(env, w, c, before, answers);
    hide HandleValidation, Suits, Downloaded;
    if o.sha256sum in Survivors(objects, before) {
      OnlyUsefulFilesRemain(objects, before, o.sha256sum);
      var i :| 0 <= i < |objects| && objects[i].sha256sum == o.sha256sum;
      assert objects[i] in objects;
    }
  }

  // ---- After unpacking ----

  /** Every object is written to its file, over what was there. */
  function Extract(dir: Directory, objects: seq<Object>, entries: seq<Entry>): Directory
    requires |entries| >= |objects|
  {
    if objects == [] then dir
    else Extract(dir, objects[..|objects| - 1], entries)[objects[|objects| - 1].sha256sum := entries[|objects| - 1]]
  }

  /** The directory once a local package was unpacked while `active` is flagged: its archive holds what it asks
      for, and the cleanup for the other set succeeded. */
  ghost predicate Unpacked(
    package: Package, active: InstallSet, before: Directory, entries: seq<Entry>, dir: Directory) {
    var objects := package.Objects(active);
    && |entries| >= |objects|
    && (forall i | 0 <= i < |objects| ::
          entries[i].isFile && Honest(AllObjects(package), objects[i].sha256sum, Some(entries[i])))
    && CanCleanUp(package.Objects(active.Other()), Extract(before, objects, entries))
    && dir == Survivors(package.Objects(active.Other()), Extract(before, objects, entries))
  }

  lemma {:induction false} ExtractedIs(
    package: Package, dir: Directory, objects: seq<Object>, entries: seq<Entry>, o: Object)
    requires |entries| >= |objects| && o in AllObjects(package)
    requires forall i | 0 <= i < |objects| ::
               entries[i].isFile && Honest(AllObjects(package), objects[i].sha256sum, Some(entries[i]))
    ensures var after := Extract(dir, objects, entries);
            if SharesDigest(o, objects) then IsReady(o, after) && after[o.sha256sum].isFile
            else (o.sha256sum in after <==> o.sha256sum in dir)
                 && (o.sha256sum in dir ==> after[o.sha256sum] == dir[o.sha256sum])
  {
    if objects != [] {
      var before, last := objects[..|objects| - 1], objects[|objects| - 1];
      ExtractedIs(package, dir, before, entries, o);
      assert last in objects && forall p | p in before :: p in objects;
      if SharesDigest(o, objects) && last.sha256sum != o.sha256sum {
        var p :| p in objects && p.sha256sum == o.sha256sum;
        assert p in before;
      }
    }
  }

  lemma ReadySurvives(objects: seq<Object>, dir: Directory, o: Object)
    ensures IsReady(o, Survivors(objects, dir)) <==>
            && IsReady(o, dir) && !IsLeftover(o.sha256sum)
            && (dir[o.sha256sum].isFile ==> SharesDigest(o, objects))
  {
    if SharesDigest(o, objects) {
      var p :| p in objects && p.sha256sum == o.sha256sum;
      assert Names(objects, o.sha256sum);
    }
    if i :| 0 <= i < |objects| && objects[i].sha256sum == o.sha256sum {
      assert objects[i] in objects;
    }
  }

  /** What an object of a set needs to be ready once the package was unpacked. */
  predicate ReadyOnceUnpacked(package: Package, active: InstallSet, before: Directory, target: InstallSet, o: Object) {
    && !IsLeftover(o.sha256sum)
    && if target == active then SharesDigest(o, package.Objects(active.Other()))
       else SharesDigest(o, package.Objects(active)) || IsReady(o, before)
  }

  /** An object of the set that is not flagged is ready exactly if the flagged set holds its digest too, or it was
      ready before; one of the flagged set exactly if the other set holds its digest too. */
  lemma ReadyAfterUnpackingExactlyWhen(
    package: Package, active: InstallSet, before: Directory, entries: seq<Entry>, dir: Directory, target: InstallSet,
    o: Object)
    requires Unpacked(package, active, before, entries, dir) && o in package.Objects(target)
    ensures IsReady(o, dir) <==> ReadyOnceUnpacked(package, active, before, target, o)
  {
    ObjectsAreAmongAll(package, target);
    OneOfTwo(target, active);
    ExtractedIs(package, before, package.Objects(active), entries, o);
    ReadySurvives(package.Objects(active.Other()), Extract(before, package.Objects(active), entries), o);
  }

  /** So validation accepts a local package exactly if it suits the device, is not the applied one, and the two
      sets hold each other's objects as far as needed. */
  lemma LocalPackageIsAcceptedExactlyWhen(env: Env, w: World, c: Choice, before: Directory, entries: seq<Entry>)
    requires w.state.Validation? && Target(w, c).Some? && !w.state.requireDownload
    requires Unpacked(w.state.package, w.flag, before, entries, w.dir)
    ensures HandleValidation(env, w, c).world.state.Install? <==>
            && Suits(env, w, c, Target(w, c).value) && w.store.mem.applied != Some(w.state.package.uid)
            && forall o | o in w.state.package.Objects(Target(w, c).value) && !o.remote ::
                 ReadyOnceUnpacked(w.state.package, w.flag, before, Target(w, c).value, o)
  {
    var package, target := w.state.package, Target(w, c).value;
    forall o | o in package.Objects(target) && !o.remote
      ensures IsReady(o, w.dir) <==> ReadyOnceUnpacked(package, w.flag, before, target, o)
    {
      ReadyAfterUnpackingExactlyWhen(package, w.flag, before, entries, w.dir, target, o);
    }
    AcceptedExactlyWhenReady(env, w, c, o => ReadyOnceUnpacked(package, w.flag, before, target, o));
  }
}
