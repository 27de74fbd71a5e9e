/**
 The download directory: what is cleaned up before a download, and what is downloaded
 (updatehub/src/update_package/mod.rs, updatehub/src/states/download.rs).
 */
module DownloadDir {
  import opened Packages
  import opened Wrappers

  predicate IsLeftover(name: string) {
    name == "metadata" || name == "signature"
  }

  predicate Names(objects: seq<Object>, name: string) {
    exists i :: 0 <= i < |objects| && objects[i].sha256sum == name
  }

  /** Some object of the set finds the file under `name` corrupted. */
  predicate FoundCorrupted(objects: seq<Object>, name: string, dir: Directory) {
    exists i :: 0 <= i < |objects| && objects[i].sha256sum == name && StatusOf(objects[i], dir) == Ok(Corrupted)
  }

  // ---- What cleaning up means ----

  /** The file survives a cleanup that succeeds. */
  predicate Survives(objects: seq<Object>, name: string, dir: Directory) {
    && name in dir
    && !IsLeftover(name)
    && (dir[name].isFile ==> Names(objects, name))
    && !FoundCorrupted(objects, name, dir)
  }

  /** Whatever is to go can be removed, and no two objects find the same file corrupted. */
  ghost predicate CanCleanUp(objects: seq<Object>, dir: Directory) {
    && (forall name | name in dir && !Survives(objects, name, dir) :: dir[name].removable)
    && (forall i, j | 0 <= i < j < |objects| && objects[i].sha256sum == objects[j].sha256sum
                      && !IsLeftover(objects[i].sha256sum) ::
          !(StatusOf(objects[i], dir) == Ok(Corrupted) && StatusOf(objects[j], dir) == Ok(Corrupted)))
  }

  function Unrelated(objects: seq<Object>, dir: Directory): set<string> {
    set name | name in dir && dir[name].isFile && !Names(objects, name)
  }

  const LEFTOVERS: set<string> := {"metadata", "signature"}

  class DownloadFolder {
    var entries: Directory

    constructor (entries: Directory)
      ensures this.entries == entries
    {
      this.entries := entries;
    }

    method Remove(name: string) returns (ok: bool)
      modifies this
      ensures ok == (name in old(entries) && old(entries)[name].removable)
      ensures entries == if ok then old(entries) - {name} else old(entries)
    {
      ok := name in entries && entries[name].removable;
      if ok {
        entries := entries - {name};
      }
    }

    /** Removes files in no particular order. */
    method RemoveAll(names: set<string>) returns (ok: bool)
      requires names <= entries.Keys
      modifies this
      ensures ok <==> forall name | name in names :: old(entries)[name].removable
      ensures ok ==> entries == old(entries) - names
      ensures OnlyLost(old(entries), entries, names)
    {
      ok := true;
      var left := names;
      while left != {}
        invariant left <= names && entries == old(entries) - (names - left)
        invariant forall name | name in names - left :: old(entries)[name].removable
        decreases left
      {
        var name :| name in left;
        var removed := Remove(name);
        if !removed {
          return false;
        }
        left := left - {name};
      }
    }

    /** Removes files one after the other; naming one twice fails. */
    method RemoveEach(names: seq<string>) returns (ok: bool)
      modifies this
      ensures ok <==> CanRemoveEach(names, old(entries))
      ensures ok ==> entries == old(entries) - (set name | name in names)
      ensures OnlyLost(old(entries), entries, set name | name in names)
    {
      for i := 0 to |names|
        invariant entries == old(entries) - (set name | name in names[..i])
        invariant CanRemoveEach(names[..i], old(entries))
      {
        var removed := Remove(names[i]);
        if !removed {
          return false;
        }
        assert forall name :: name in names[..i + 1] <==> name in names[..i] || name == names[i];
      }
      assert names[..|names|] == names;
      return true;
    }

    method ClearUnrelatedFiles(objects: seq<Object>) returns (ok: bool)
      modifies this
      ensures ok <==> CanCleanUp(objects, old(entries))
      ensures ok ==> entries == Survivors(objects, old(entries))
      ensures !ok ==> Interrupted(objects, old(entries), entries)
    {
      ghost var before := entries;
      ok := RemoveAll(Unrelated(objects, entries));
      if !ok {
        return;
      }

      var leftovers := (if "metadata" in entries then ["metadata"] else [])
                       + (if "signature" in entries then ["signature"] else []);
      ok := RemoveEach(leftovers);
      if !ok {
        return;
      }

      assert entries == before - Unrelated(objects, before) - LEFTOVERS;
      CorruptedAreLeft(objects, before, entries);
      ok := RemoveEach(CorruptedNames(objects, entries));
    }
  }

  /** A cleanup that failed: nothing new is there, and what was to survive is. */
  ghost predicate Interrupted(objects: seq<Object>, before: Directory, after: Directory) {
    && (forall name | name in after :: name in before && after[name] == before[name])
    && (forall name | Survives(objects, name, before) :: name in after)
  }

  /** Nothing but some of `names` was lost. */
  ghost predicate OnlyLost(before: Directory, after: Directory, names: set<string>) {
    && (forall name | name in after :: name in before && after[name] == before[name])
    && (forall name | name in before && name !in names :: name in after)
  }

  ghost predicate CanRemoveEach(names: seq<string>, dir: Directory) {
    && (forall name | name in names :: name in dir && dir[name].removable)
    && (forall i, j | 0 <= i < j < |names| :: names[i] != names[j])
  }

  ghost function Survivors(objects: seq<Object>, dir: Directory): Directory {
    map name | name in dir && Survives(objects, name, dir) :: dir[name]
  }

  /** The digests of the objects whose file is corrupted, in the order of the objects. */
  function CorruptedNames(objects: seq<Object>, dir: Directory): seq<string> {
    if objects == [] then []
    else
      CorruptedNames(objects[..|objects| - 1], dir)
      + if StatusOf(objects[|objects| - 1], dir) == Ok(Corrupted) then [objects[|objects| - 1].sha256sum] else []
  }

  /** Two objects find the same file corrupted. */
  ghost predicate Clash(objects: seq<Object>, dir: Directory) {
    exists i, j :: 0 <= i < j < |objects| && objects[i].sha256sum == objects[j].sha256sum
                   && StatusOf(objects[i], dir) == Ok(Corrupted) && StatusOf(objects[j], dir) == Ok(Corrupted)
  }

  ghost predicate Distinct(names: seq<string>) {
    forall i, j | 0 <= i < j < |names| :: names[i] != names[j]
  }

  lemma {:induction false} CorruptedNamesAre(objects: seq<Object>, dir: Directory)
    ensures forall name :: name in CorruptedNames(objects, dir) <==> FoundCorrupted(objects, name, dir)
    ensures Distinct(CorruptedNames(objects, dir)) <==> !Clash(objects, dir)
  {
    if objects != [] {
      var before, last := objects[..|objects| - 1], objects[|objects| - 1];
      CorruptedNamesAre(before, dir);
      forall name
        ensures FoundCorrupted(objects, name, dir) <==>
                FoundCorrupted(before, name, dir) || (last.sha256sum == name && StatusOf(last, dir) == Ok(Corrupted))
      {
        FoundCorruptedSplits(objects, name, dir);
      }
      ClashSplits(objects, dir);
      if StatusOf(last, dir) == Ok(Corrupted) {
        DistinctAppends(CorruptedNames(before, dir), last.sha256sum);
      } else {
        assert CorruptedNames(objects, dir) == CorruptedNames(before, dir);
      }
    }
  }

  lemma DistinctAppends(names: seq<string>, name: string)
    ensures Distinct(names + [name]) <==> Distinct(names) && name !in names
  {
    var all := names + [name];
    assert forall i | 0 <= i < |names| :: all[i] == names[i];
    if Distinct(all) {
      forall i | 0 <= i < |names|
        ensures names[i] != name
      {
        assert all[i] != all[|names|];
      }
    }
  }

  lemma FoundCorruptedSplits(objects: seq<Object>, name: string, dir: Directory)
    requires objects != []
    ensures var before, last := objects[..|objects| - 1], objects[|objects| - 1];
            FoundCorrupted(objects, name, dir) <==>
            FoundCorrupted(before, name, dir) || (last.sha256sum == name && StatusOf(last, dir) == Ok(Corrupted))
  {
    var before := objects[..|objects| - 1];
    if FoundCorrupted(before, name, dir) {
      var i :| 0 <= i < |before| && before[i].sha256sum == name && StatusOf(before[i], dir) == Ok(Corrupted);
      assert objects[i] == before[i];
    }
    if i :| 0 <= i < |before| && objects[i].sha256sum == name && StatusOf(objects[i], dir) == Ok(Corrupted) {
      assert before[i] == objects[i];
    }
  }

  lemma ClashKept(objects: seq<Object>, dir: Directory)
    requires objects != []
    ensures var before, last := objects[..|objects| - 1], objects[|objects| - 1];
            Clash(before, dir) || (StatusOf(last, dir) == Ok(Corrupted) && FoundCorrupted(before, last.sha256sum, dir))
            ==> Clash(objects, dir)
  {
    hide StatusOf;
    var before, last := objects[..|objects| - 1], objects[|objects| - 1];
    if Clash(before, dir) {
      var i, j :| 0 <= i < j < |before| && before[i].sha256sum == before[j].sha256sum
                  && StatusOf(before[i], dir) == Ok(Corrupted) && StatusOf(before[j], dir) == Ok(Corrupted);
      assert objects[i] == before[i] && objects[j] == before[j];
    } else if StatusOf(last, dir) == Ok(Corrupted) && FoundCorrupted(before, last.sha256sum, dir) {
      var i :| 0 <= i < |before| && before[i].sha256sum == last.sha256sum && StatusOf(before[i], dir) == Ok(Corrupted);
      assert objects[i] == before[i] && objects[|objects| - 1] == last;
    }
  }

  lemma ClashSplits(objects: seq<Object>, dir: Directory)
    requires objects != []
    ensures var before, last := objects[..|objects| - 1], objects[|objects| - 1];
            Clash(objects, dir) <==>
            Clash(before, dir) || (StatusOf(last, dir) == Ok(Corrupted) && FoundCorrupted(before, last.sha256sum, dir))
  {
    hide StatusOf;
    var before, last := objects[..|objects| - 1], objects[|objects| - 1];
    ClashKept(objects, dir);
    if Clash(objects, dir) {
      var i, j :| 0 <= i < j < |objects| && objects[i].sha256sum == objects[j].sha256sum
                  && StatusOf(objects[i], dir) == Ok(Corrupted) && StatusOf(objects[j], dir) == Ok(Corrupted);
      assert before[i] == objects[i] && (j < |before| ==> before[j] == objects[j]);
    }
  }

  /** Removing unrelated and leftover files changes no verdict but that on leftovers. */
  lemma SameStatus(objects: seq<Object>, before: Directory, after: Directory, i: nat)
    requires after == before - Unrelated(objects, before) - LEFTOVERS && i < |objects|
    ensures StatusOf(objects[i], after) ==
            if IsLeftover(objects[i].sha256sum) then Ok(Missing) else StatusOf(objects[i], before)
  {
    assert Names(objects, objects[i].sha256sum);
  }

  lemma FoundCorruptedAfter(objects: seq<Object>, before: Directory, after: Directory, name: string)
    requires after == before - Unrelated(objects, before) - LEFTOVERS
    ensures FoundCorrupted(objects, name, after) <==> FoundCorrupted(objects, name, before) && !IsLeftover(name)
  {
    if i :| 0 <= i < |objects| && objects[i].sha256sum == name && StatusOf(objects[i], after) == Ok(Corrupted) {
      SameStatus(objects, before, after, i);
    }
    if i :| 0 <= i < |objects| && objects[i].sha256sum == name && StatusOf(objects[i], before) == Ok(Corrupted)
            && !IsLeftover(name) {
      SameStatus(objects, before, after, i);
    }
  }

  lemma ClashAfter(objects: seq<Object>, before: Directory, after: Directory)
    requires after == before - Unrelated(objects, before) - LEFTOVERS
    ensures !Clash(objects, after) <==>
            forall i, j | 0 <= i < j < |objects| && objects[i].sha256sum == objects[j].sha256sum
                          && !IsLeftover(objects[i].sha256sum) ::
              !(StatusOf(objects[i], before) == Ok(Corrupted) && StatusOf(objects[j], before) == Ok(Corrupted))
  {
    forall i | 0 <= i < |objects|
      ensures StatusOf(objects[i], after) ==
              if IsLeftover(objects[i].sha256sum) then Ok(Missing) else StatusOf(objects[i], before)
    {
      SameStatus(objects, before, after, i);
    }
  }

  /** Once unrelated and leftover files are gone, the corrupted files are what else is to go. */
  lemma CorruptedAreLeft(objects: seq<Object>, before: Directory, after: Directory)
    requires after == before - Unrelated(objects, before) - LEFTOVERS
    requires forall name | name in before && (name in Unrelated(objects, before) || name in LEFTOVERS) ::
               before[name].removable
    ensures CanRemoveEach(CorruptedNames(objects, after), after) <==> CanCleanUp(objects, before)
    ensures after - (set name | name in CorruptedNames(objects, after)) == Survivors(objects, before)
  {
    CorruptedNamesAfter(objects, before, after);
    ClashAfter(objects, before, after);
    SurvivorsAreLeft(objects, before, after);
  }

  lemma SurvivorsAreLeft(objects: seq<Object>, before: Directory, after: Directory)
    requires after == before - Unrelated(objects, before) - LEFTOVERS
    ensures after - (set name | name in CorruptedNames(objects, after)) == Survivors(objects, before)
  {
    CorruptedNamesAfter(objects, before, after);
    hide CorruptedNames, FoundCorrupted, Names;
    assert forall name :: name in LEFTOVERS <==> IsLeftover(name);
  }

  lemma CorruptedNamesAfter(objects: seq<Object>, before: Directory, after: Directory)
    requires after == before - Unrelated(objects, before) - LEFTOVERS
    ensures forall name ::
              name in CorruptedNames(objects, after) <==> FoundCorrupted(objects, name, before) && !IsLeftover(name)
    ensures Distinct(CorruptedNames(objects, after)) <==> !Clash(objects, after)
  {
    CorruptedNamesAre(objects, after);
    forall name
      ensures name in CorruptedNames(objects, after) <==> FoundCorrupted(objects, name, before) && !IsLeftover(name)
    {
      FoundCorruptedAfter(objects, before, after, name);
    }
  }

  // ---- What a cleanup is for ----

  /** After a cleanup that succeeds, every regular file left is named by an object, and none is corrupted. */
  lemma OnlyUsefulFilesRemain(objects: seq<Object>, dir: Directory, name: string)
    requires name in Survivors(objects, dir)
    ensures dir[name].isFile ==> Names(objects, name)
    ensures !FoundCorrupted(objects, name, Survivors(objects, dir))
  {
    var after := Survivors(objects, dir);
    forall i | 0 <= i < |objects| && objects[i].sha256sum == name
      ensures StatusOf(objects[i], after) == StatusOf(objects[i], dir) != Ok(Corrupted)
    {
    }
  }

  /** What survives: a file that is named by an object, or no regular file, that is not left over from a local
      install and that no object finds corrupted. */
  lemma SurvivorsAre(objects: seq<Object>, dir: Directory, name: string)
    ensures name in Survivors(objects, dir) <==>
            && name in dir && name != "metadata" && name != "signature"
            && (dir[name].isFile ==> exists o :: o in objects && o.sha256sum == name)
            && (forall o | o in objects && o.sha256sum == name :: StatusOf(o, dir) != Ok(Corrupted))
    ensures name in Survivors(objects, dir) ==> Survivors(objects, dir)[name] == dir[name]
  {
    assert Names(objects, name) <==> exists o :: o in objects && o.sha256sum == name by {
      if i :| 0 <= i < |objects| && objects[i].sha256sum == name {
        assert objects[i] in objects;
      }
    }
    assert FoundCorrupted(objects, name, dir) <==>
           exists o :: o in objects && o.sha256sum == name && StatusOf(o, dir) == Ok(Corrupted) by {
      if i :| 0 <= i < |objects| && objects[i].sha256sum == name && StatusOf(objects[i], dir) == Ok(Corrupted) {
        assert objects[i] in objects;
      }
    }
  }

  /** What is ready or partly downloaded stays so, exactly if it is not named like a leftover and no object
      of the same digest finds it corrupted. */
  lemma UsefulIsKeptExactlyWhen(objects: seq<Object>, dir: Directory, i: nat)
    requires i < |objects|
    requires StatusOf(objects[i], dir) == Ok(Ready) || StatusOf(objects[i], dir) == Ok(Incomplete)
    ensures StatusOf(objects[i], Survivors(objects, dir)) == StatusOf(objects[i], dir) <==>
            !IsLeftover(objects[i].sha256sum) && !FoundCorrupted(objects, objects[i].sha256sum, dir)
  {
    assert Names(objects, objects[i].sha256sum);
  }

  // ---- What is downloaded ----

  datatype Pending = Pending(filename: string, sha256sum: string)

  predicate NeedsDownload(o: Object, dir: Directory) {
    !o.remote && !IsReady(o, dir)
  }

  function Wanted(objects: seq<Object>, dir: Directory): seq<Pending> {
    if objects == [] then []
    else
      (if NeedsDownload(objects[0], dir) then [Pending(objects[0].filename, objects[0].sha256sum)] else [])
      + Wanted(objects[1..], dir)
  }

  /** `Vec::dedup`: of equal neighbours the first is kept. */
  function Dedup(list: seq<Pending>): (r: seq<Pending>)
    ensures list != [] ==> r != [] && r[0] == list[0]
    ensures list == [] ==> r == []
  {
    if |list| <= 1 then list
    else if list[0] == list[1] then
      Dedup(list[1..])
    else [list[0]] + Dedup(list[1..])
  }

  function PendingDownloads(objects: seq<Object>, dir: Directory): seq<Pending> {
    Dedup(Wanted(objects, dir))
  }

  lemma {:induction false} WantedAre(objects: seq<Object>, dir: Directory, p: Pending)
    ensures p in Wanted(objects, dir) <==>
            exists o :: o in objects && NeedsDownload(o, dir) && p == Pending(o.filename, o.sha256sum)
  {
    if objects != [] {
      WantedAre(objects[1..], dir, p);
      assert forall o :: o in objects <==> o == objects[0] || o in objects[1..];
    }
  }

  lemma {:induction false} DedupKeepsMembers(list: seq<Pending>, p: Pending)
    ensures p in Dedup(list) <==> p in list
  {
    if |list| > 1 {
      DedupKeepsMembers(list[1..], p);
      assert p in list <==> p == list[0] || p in list[1..];
    }
  }

  /** The pending list covers exactly the objects that cannot be installed remotely and are not ready. */
  lemma PendingCoversWhatIsMissing(objects: seq<Object>, dir: Directory, p: Pending)
    ensures p in PendingDownloads(objects, dir) <==>
            exists o :: o in objects && !o.remote && StatusOf(o, dir) != Ok(Ready) && p == Pending(o.filename, o.sha256sum)
  {
    assert forall o :: NeedsDownload(o, dir) <==> !o.remote && StatusOf(o, dir) != Ok(Ready);
    DedupKeepsMembers(Wanted(objects, dir), p);
    WantedAre(objects, dir, p);
  }

  ghost predicate DownloadsOnce(list: seq<Pending>) {
    forall i, j | 0 <= i < j < |list| :: list[i] != list[j]
  }

  /** Equal entries stand next to each other. */
  ghost predicate Contiguous(list: seq<Pending>) {
    forall i, j, k | 0 <= i < j < k < |list| && list[i] == list[k] :: list[j] == list[i]
  }

  /** Duplicates are only removed when they are neighbours: nothing is downloaded twice exactly then. */
  lemma {:induction false} DedupRemovesAllExactlyWhen(list: seq<Pending>)
    ensures DownloadsOnce(Dedup(list)) <==> Contiguous(list)
  {
    if |list| > 1 {
      var rest := list[1..];
      DedupRemovesAllExactlyWhen(rest);
      DedupKeepsMembers(rest, list[0]);
      if list[0] == list[1] {
        ContiguousWithRepeat(list);
      } else {
        ContiguousWithNew(list);
        OnceWithNew(list[0], Dedup(rest));
      }
    }
  }

  lemma OnceWithNew(first: Pending, rest: seq<Pending>)
    ensures DownloadsOnce([first] + rest) <==> DownloadsOnce(rest) && first !in rest
  {
    var all := [first] + rest;
    assert forall i | 0 <= i < |rest| :: all[i + 1] == rest[i];
    if DownloadsOnce(all) {
      forall i, j | 0 <= i < j < |rest|
        ensures rest[i] != rest[j]
      {
        assert all[i + 1] != all[j + 1];
      }
      forall i | 0 <= i < |rest|
        ensures rest[i] != first
      {
        assert all[0] != all[i + 1];
      }
    }
  }

  lemma ContiguousWithRepeat(list: seq<Pending>)
    requires |list| > 1 && list[0] == list[1]
    ensures Contiguous(list) <==> Contiguous(list[1..])
  {
    ContiguousTail(list);
    if Contiguous(list[1..]) {
      forall i, j, k | 0 <= i < j < k < |list| && list[i] == list[k]
        ensures list[j] == list[i]
      {
        if i == 0 && j > 1 {
          assert list[1..][0] == list[1..][k - 1] && list[1..][j - 1] == list[1..][0];
        } else if i > 0 {
          assert list[1..][i - 1] == list[1..][k - 1] && list[1..][j - 1] == list[1..][i - 1];
        }
      }
    }
  }

  lemma ContiguousWithNew(list: seq<Pending>)
    requires |list| > 1 && list[0] != list[1]
    ensures Contiguous(list) <==> Contiguous(list[1..]) && list[0] !in list[1..]
  {
    ContiguousTail(list);
    if Contiguous(list) {
      forall k | 1 < k < |list|
        ensures list[k] != list[0]
      {
      }
    }
    if Contiguous(list[1..]) && list[0] !in list[1..] {
      forall i, j, k | 0 <= i < j < k < |list| && list[i] == list[k]
        ensures list[j] == list[i]
      {
        assert list[k] == list[1..][k - 1];
        assert list[1..][j - 1] == list[1..][i - 1];
      }
    }
  }

  lemma ContiguousTail(list: seq<Pending>)
    requires list != []
    ensures Contiguous(list) ==> Contiguous(list[1..])
  {
    if Contiguous(list) {
      forall i, j, k | 0 <= i < j < k < |list[1..]| && list[1..][i] == list[1..][k]
        ensures list[1..][j] == list[1..][i]
      {
        assert list[i + 1] == list[k + 1] && list[j + 1] == list[i + 1];
      }
    }
  }

  // ---- The download loop ----

  /** One download: what is in the file afterwards, if there is one, and whether it succeeded. */
  datatype Delivery = Delivery(left: Option<Entry>, ok: bool)

  function Put(dir: Directory, name: string, left: Option<Entry>): Directory {
    if left.Some? then dir[name := left.value] else dir - {name}
  }

  /** The directory after downloading `pending` in turn; the first download that fails ends the loop. */
  function Delivered(dir: Directory, pending: seq<Pending>, answers: seq<Delivery>): (Directory, bool)
    requires |answers| >= |pending|
  {
    if pending == [] then (dir, true)
    else
      var (before, ok) := Delivered(dir, pending[..|pending| - 1], answers);
      var answer := answers[|pending| - 1];
      if !ok then (before, false)
      else (Put(before, pending[|pending| - 1].sha256sum, answer.left), answer.ok)
  }

  method StartDownload(folder: DownloadFolder, objects: seq<Object>, answers: seq<Delivery>) returns (ok: bool)
    requires |answers| >= |objects|
    modifies folder
    ensures CanCleanUp(objects, old(folder.entries)) ==>
              var clean := Survivors(objects, old(folder.entries));
              |PendingDownloads(objects, clean)| <= |objects|
              && (folder.entries, ok) == Delivered(clean, PendingDownloads(objects, clean), answers)
    ensures !CanCleanUp(objects, old(folder.entries)) ==>
              !ok && Interrupted(objects, old(folder.entries), folder.entries)
  {
    ok := folder.ClearUnrelatedFiles(objects);
    if !ok {
      return;
    }
    var pending := PendingDownloads(objects, folder.entries);
    PendingIsShort(objects, folder.entries);
    ghost var clean := folder.entries;
    for i := 0 to |pending|
      invariant (folder.entries, true) == Delivered(clean, pending[..i], answers)
    {
      assert pending[..i + 1][..i] == pending[..i];
      folder.entries := Put(folder.entries, pending[i].sha256sum, answers[i].left);
      if !answers[i].ok {
        StaysFailed(clean, pending, i + 1, answers);
        return false;
      }
    }
    assert pending[..|pending|] == pending;
  }

  lemma {:induction false} StaysFailed(dir: Directory, pending: seq<Pending>, n: nat, answers: seq<Delivery>)
    requires n <= |pending| <= |answers| && !Delivered(dir, pending[..n], answers).1
    ensures Delivered(dir, pending, answers) == Delivered(dir, pending[..n], answers)
  {
    if n == |pending| {
      assert pending[..n] == pending;
    } else {
      assert pending[..|pending| - 1][..n] == pending[..n];
      StaysFailed(dir, pending[..|pending| - 1], n, answers);
    }
  }

  lemma {:induction false} PendingIsShort(objects: seq<Object>, dir: Directory)
    ensures |PendingDownloads(objects, dir)| <= |Wanted(objects, dir)| <= |objects|
  {
    DedupIsShort(Wanted(objects, dir));
    WantedIsShort(objects, dir);
  }

  lemma {:induction false} WantedIsShort(objects: seq<Object>, dir: Directory)
    ensures |Wanted(objects, dir)| <= |objects|
  {
    if objects != [] {
      WantedIsShort(objects[1..], dir);
    }
  }

  lemma {:induction false} DedupIsShort(list: seq<Pending>)
    ensures |Dedup(list)| <= |list|
  {
    if |list| > 1 {
      DedupIsShort(list[1..]);
    }
  }

  // ---- An honest server ----

  /** The entry is what every object of that digest asks for. */
  ghost predicate Honest(objects: seq<Object>, sha256sum: string, left: Option<Entry>) {
    && left.Some? && left.value.readable && left.value.digest == sha256sum
    && forall o | o in objects && o.sha256sum == sha256sum :: left.value.size >= o.size
  }

  lemma {:induction false} DeliveredHolds(
    objects: seq<Object>, dir: Directory, pending: seq<Pending>, answers: seq<Delivery>, o: Object)
    requires o in objects && |answers| >= |pending| && Delivered(dir, pending, answers).1
    requires forall i | 0 <= i < |pending| ::
               answers[i].ok ==> Honest(objects, pending[i].sha256sum, answers[i].left)
    requires IsReady(o, dir) || exists p :: p in pending && p.sha256sum == o.sha256sum
    ensures IsReady(o, Delivered(dir, pending, answers).0)
  {
    if pending != [] {
      var before, last := pending[..|pending| - 1], pending[|pending| - 1];
      if last.sha256sum != o.sha256sum {
        if p :| p in pending && p.sha256sum == o.sha256sum {
          assert p in before;
        }
        DeliveredHolds(objects, dir, before, answers, o);
      }
    }
  }

  /** A download that succeeds from an honest server leaves every object ready that must be. */
  lemma HonestDownloadMakesReady(objects: seq<Object>, clean: Directory, answers: seq<Delivery>, o: Object)
    requires o in objects && !o.remote
    requires var pending := PendingDownloads(objects, clean);
             && |answers| >= |pending| && Delivered(clean, pending, answers).1
             && forall i | 0 <= i < |pending| ::
                  answers[i].ok ==> Honest(objects, pending[i].sha256sum, answers[i].left)
    ensures IsReady(o, Delivered(clean, PendingDownloads(objects, clean), answers).0)
  {
    if !IsReady(o, clean) {
      PendingCoversWhatIsMissing(objects, clean, Pending(o.filename, o.sha256sum));
      assert Pending(o.filename, o.sha256sum) in PendingDownloads(objects, clean);
    }
    DeliveredHolds(objects, clean, PendingDownloads(objects, clean), answers, o);
  }
}
