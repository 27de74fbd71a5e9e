/**
 Which block devices share storage with a target (updatehub/src/utils/fs.rs): a worklist walk over
 the partitions a disk contains and the devices stacked on top, which records the disk of a
 partition but does not walk it.
 */
module BlockDevices {
  import opened Wrappers

  datatype DeviceId = DeviceId(major: nat, minor: nat)

  /** What sysfs tells about one device. `parent` is the number read from the enclosing directory. */
  datatype Node = Node(isPartition: bool, parent: Option<DeviceId>, partitions: seq<DeviceId>, holders: seq<DeviceId>)

  /** A device without a sysfs entry is absent. */
  type Sysfs = map<DeviceId, Node>

  /** Walking `d` leads to `next`, a partition of the disk `d` or a device stacked on `d`. */
  predicate Leads(sysfs: Sysfs, d: DeviceId, next: DeviceId) {
    d in sysfs && ((!sysfs[d].isPartition && next in sysfs[d].partitions) || next in sysfs[d].holders)
  }

  /** The disk recorded when `d` is walked. */
  function DiskOf(sysfs: Sysfs, d: DeviceId): Option<DeviceId> {
    if d in sysfs && sysfs[d].isPartition then sysfs[d].parent else None
  }

  // ---- Reachability ----

  ghost predicate IsPath(sysfs: Sysfs, path: seq<DeviceId>) {
    path != [] && forall i | 0 < i < |path| :: Leads(sysfs, path[i - 1], path[i])
  }

  ghost predicate Reaches(sysfs: Sysfs, from: DeviceId, to: DeviceId) {
    exists path :: IsPath(sysfs, path) && path[0] == from && path[|path| - 1] == to
  }

  lemma ReachesItself(sysfs: Sysfs, d: DeviceId)
    ensures Reaches(sysfs, d, d)
  {
    assert IsPath(sysfs, [d]) && [d][0] == d;
  }

  lemma ReachesNext(sysfs: Sysfs, from: DeviceId, via: DeviceId, to: DeviceId)
    requires Reaches(sysfs, from, via) && Leads(sysfs, via, to)
    ensures Reaches(sysfs, from, to)
  {
    var path :| IsPath(sysfs, path) && path[0] == from && path[|path| - 1] == via;
    assert IsPath(sysfs, path + [to]) && (path + [to])[0] == from;
  }

  /** Every device reached other than the start is a successor of a device reached. */
  lemma ReachedFrom(sysfs: Sysfs, from: DeviceId, to: DeviceId) returns (via: DeviceId)
    requires Reaches(sysfs, from, to) && from != to
    ensures Reaches(sysfs, from, via) && Leads(sysfs, via, to)
  {
    var path :| IsPath(sysfs, path) && path[0] == from && path[|path| - 1] == to;
    via := path[|path| - 2];
    assert IsPath(sysfs, path[..|path| - 1]);
  }

  /** A set containing the start and closed under successors contains everything reached. */
  lemma ClosedContainsReached(sysfs: Sysfs, from: DeviceId, closed: set<DeviceId>, to: DeviceId)
    requires from in closed && Reaches(sysfs, from, to)
    requires forall d, next | d in closed && Leads(sysfs, d, next) :: next in closed
    ensures to in closed
  {
    var path :| IsPath(sysfs, path) && path[0] == from && path[|path| - 1] == to;
    PathStaysInside(sysfs, path, closed);
  }

  lemma {:induction false} PathStaysInside(sysfs: Sysfs, path: seq<DeviceId>, closed: set<DeviceId>)
    requires IsPath(sysfs, path) && path[0] in closed
    requires forall d, next | d in closed && Leads(sysfs, d, next) :: next in closed
    ensures path[|path| - 1] in closed
  {
    if |path| > 1 {
      PathStaysInside(sysfs, path[..|path| - 1], closed);
      assert Leads(sysfs, path[|path| - 2], path[|path| - 1]);
    }
  }

  /** Taking devices out of sysfs does not make more reachable. */
  lemma ReachesMore(sysfs: Sysfs, gone: set<DeviceId>, from: DeviceId, to: DeviceId)
    requires Reaches(sysfs - gone, from, to)
    ensures Reaches(sysfs, from, to)
  {
    var path :| IsPath(sysfs - gone, path) && path[0] == from && path[|path| - 1] == to;
    assert IsPath(sysfs, path);
  }

  // ---- What the walk is for ----

  /** `d` is reached from `target` through partitions and holders, or is the disk of a device reached. */
  ghost predicate Related(sysfs: Sysfs, target: DeviceId, d: DeviceId) {
    Reaches(sysfs, target, d) || exists p :: Reaches(sysfs, target, p) && DiskOf(sysfs, p) == Some(d)
  }

  /** The devices related to the target are the least that hold the target, the partitions of each whole device
      and the devices stacked on any; and the disk of each partition among those. */
  lemma RelatedIsLeast(sysfs: Sysfs, target: DeviceId, walked: set<DeviceId>, all: set<DeviceId>, d: DeviceId)
    requires target in walked && walked <= all
    requires forall e, next | e in walked && e in sysfs && !sysfs[e].isPartition && next in sysfs[e].partitions ::
               next in walked
    requires forall e, next | e in walked && e in sysfs && next in sysfs[e].holders :: next in walked
    requires forall e | e in walked && e in sysfs && sysfs[e].isPartition && sysfs[e].parent.Some? ::
               sysfs[e].parent.value in all
    requires Related(sysfs, target, d)
    ensures d in all
  {
    if Reaches(sysfs, target, d) {
      ClosedContainsReached(sysfs, target, walked, d);
    } else {
      var p :| Reaches(sysfs, target, p) && DiskOf(sysfs, p) == Some(d);
      ClosedContainsReached(sysfs, target, walked, p);
    }
  }

  /** And they do hold all of those. */
  lemma RelatedHolds(sysfs: Sysfs, target: DeviceId, d: DeviceId, next: DeviceId)
    requires Reaches(sysfs, target, d) && d in sysfs
    ensures Related(sysfs, target, target) && Related(sysfs, target, d)
    ensures (!sysfs[d].isPartition && next in sysfs[d].partitions) || next in sysfs[d].holders ==>
              Reaches(sysfs, target, next)
    ensures sysfs[d].isPartition && sysfs[d].parent == Some(next) ==> Related(sysfs, target, next)
  {
    ReachesItself(sysfs, target);
    if (!sysfs[d].isPartition && next in sysfs[d].partitions) || next in sysfs[d].holders {
      ReachesNext(sysfs, target, d, next);
    }
    assert sysfs[d].isPartition && sysfs[d].parent == Some(next) ==> DiskOf(sysfs, d) == Some(next);
  }

  /** Holders are whole devices, a listed partition names the disk listing it, disks are whole devices. */
  ghost predicate Tidy(sysfs: Sysfs) {
    && (forall d, h | d in sysfs && h in sysfs[d].holders && h in sysfs :: !sysfs[h].isPartition)
    && (forall d, p | d in sysfs && !sysfs[d].isPartition && p in sysfs[d].partitions && p in sysfs ::
          sysfs[p].isPartition && sysfs[p].parent == Some(d))
    && (forall p | p in sysfs && DiskOf(sysfs, p).Some? && DiskOf(sysfs, p).value in sysfs ::
          !sysfs[DiskOf(sysfs, p).value].isPartition)
  }

  /** Sysfs without the entry of the target's own disk, which is recorded before anything is walked. */
  function WithoutOwnDisk(sysfs: Sysfs, target: DeviceId): Sysfs {
    if DiskOf(sysfs, target).Some? && DiskOf(sysfs, target).value != target
    then sysfs - {DiskOf(sysfs, target).value}
    else sysfs
  }

  ghost predicate IsDiskOfSome(sysfs: Sysfs, walked: seq<DeviceId>, d: DeviceId) {
    exists p :: p in walked && DiskOf(sysfs, p) == Some(d)
  }

  ghost predicate IsLedToBySome(sysfs: Sysfs, walked: seq<DeviceId>, d: DeviceId) {
    exists via :: via in walked && Leads(sysfs, via, d)
  }

  /** The devices of `walked` start at the target, and each other one was led to by an earlier one. */
  ghost predicate InOrder(sysfs: Sysfs, target: DeviceId, walked: seq<DeviceId>) {
    walked != [] ==>
      var before, d := walked[..|walked| - 1], walked[|walked| - 1];
      InOrder(sysfs, target, before) && if before == [] then d == target else IsLedToBySome(sysfs, before, d)
  }

  /** What a walk that visited `walked` and returned `found` has done, whatever sysfs holds. */
  ghost predicate WalkedFrom(sysfs: Sysfs, target: DeviceId, walked: seq<DeviceId>, found: set<DeviceId>) {
    && target in walked
    && InOrder(WithoutOwnDisk(sysfs, target), target, walked)
    && (forall d | d in walked :: d in found)
    && (forall d, next | d in walked && Leads(sysfs, d, next) :: next in found)
    && (forall d | d in walked && DiskOf(sysfs, d).Some? :: DiskOf(sysfs, d).value in found)
    && (forall d | d in found && d !in walked :: IsDiskOfSome(sysfs, walked, d))
  }

  ghost function Mentioned(node: Node): set<DeviceId> {
    (if node.parent.Some? then {node.parent.value} else {}) + (set d | d in node.partitions) + (set d | d in node.holders)
  }

  ghost function Universe(sysfs: Sysfs, target: DeviceId): set<DeviceId> {
    {target} + set d, e | d in sysfs && e in Mentioned(sysfs[d]) :: e
  }

  method RelatedBlockDevices(sysfs: Sysfs, target: DeviceId) returns (found: set<DeviceId>, ghost walked: seq<DeviceId>)
    ensures WalkedFrom(sysfs, target, walked, found)
    ensures target in found && forall d | d in found :: Related(sysfs, target, d)
    ensures Tidy(sysfs) ==> forall d :: d in found <==> Related(WithoutOwnDisk(sysfs, target), target, d)
  {
    hide Related, Tidy, Universe, InOrder, IsDiskOfSome, IsLedToBySome;
    found, walked := {}, [];
    var pending := [target];
    ghost var reach := WithoutOwnDisk(sysfs, target);
    ghost var universe := Universe(sysfs, target);
    UniverseHasAll(sysfs, target);
    OrderOfNone(reach, target);

    while pending != []
      invariant found <= universe && forall d | d in pending :: d in universe
      invariant if walked == [] then pending == [target] && found == {} else target in walked
      invariant walked != [] && DiskOf(sysfs, target).Some? ==>
          && DiskOf(sysfs, target).value in found
          && (DiskOf(sysfs, target).value != target ==> DiskOf(sysfs, target).value !in walked)
      invariant InOrder(reach, target, walked)
      invariant forall d | d in walked :: d in found
      invariant forall d | d in pending && walked != [] :: IsLedToBySome(reach, walked, d)
      invariant forall d, next | d in walked && Leads(sysfs, d, next) :: next in found || next in pending
      invariant forall d | d in walked && DiskOf(sysfs, d).Some? :: DiskOf(sysfs, d).value in found
      invariant forall d | d in found && d !in walked :: IsDiskOfSome(sysfs, walked, d)
      decreases universe - found, |pending|
    {
      var d := pending[|pending| - 1];
      ghost var all, before := pending, walked;
      pending := pending[..|pending| - 1];
      LastSplits(all);
      if d in found {
        continue;
      }
      found := found + {d};
      walked := walked + [d];
      WalkedGrows(sysfs, before, d);
      WalkedGrows(reach, before, d);
      OrderGrows(reach, target, before, d);
      if d in sysfs {
        var node := sysfs[d];
        if node.isPartition {
          if node.parent.Some? {
            found := found + {node.parent.value};
          }
        } else {
          pending := pending + node.partitions;
        }
        pending := pending + node.holders;
        assert d in reach && reach[d] == node;
      }
    }

    WalkIsSound(sysfs, target, walked, found);
    if Tidy(sysfs) {
      TidyWalkIsExact(sysfs, target, walked, found);
    }
  }

  lemma UniverseHasAll(sysfs: Sysfs, target: DeviceId)
    ensures target in Universe(sysfs, target)
    ensures forall d | d in sysfs :: Mentioned(sysfs[d]) <= Universe(sysfs, target)
  {
  }

  lemma OrderOfNone(sysfs: Sysfs, target: DeviceId)
    ensures InOrder(sysfs, target, [])
  {
  }

  lemma OrderGrows(sysfs: Sysfs, target: DeviceId, walked: seq<DeviceId>, d: DeviceId)
    requires InOrder(sysfs, target, walked)
    requires if walked == [] then d == target else IsLedToBySome(sysfs, walked, d)
    ensures InOrder(sysfs, target, walked + [d])
  {
    assert (walked + [d])[..|walked|] == walked;
  }

  lemma LastSplits(s: seq<DeviceId>)
    requires s != []
    ensures forall e :: e in s <==> e in s[..|s| - 1] || e == s[|s| - 1]
  {
    assert s == s[..|s| - 1] + [s[|s| - 1]];
  }

  lemma WalkedGrows(sysfs: Sysfs, walked: seq<DeviceId>, d: DeviceId)
    ensures forall e | IsDiskOfSome(sysfs, walked, e) || DiskOf(sysfs, d) == Some(e) :: IsDiskOfSome(sysfs, walked + [d], e)
    ensures forall e | IsLedToBySome(sysfs, walked, e) || Leads(sysfs, d, e) :: IsLedToBySome(sysfs, walked + [d], e)
  {
    assert d in walked + [d] && forall e | e in walked :: e in walked + [d];
  }

  lemma {:induction false} WalkedIsReached(sysfs: Sysfs, target: DeviceId, walked: seq<DeviceId>, d: DeviceId)
    requires InOrder(sysfs, target, walked) && d in walked
    ensures Reaches(sysfs, target, d)
  {
    var before, last := walked[..|walked| - 1], walked[|walked| - 1];
    if d in before {
      WalkedIsReached(sysfs, target, before, d);
    } else if before == [] {
      ReachesItself(sysfs, target);
    } else {
      var via :| via in before && Leads(sysfs, via, last);
      WalkedIsReached(sysfs, target, before, via);
      ReachesNext(sysfs, target, via, last);
    }
  }

  /** Nothing unrelated is ever found, whatever sysfs holds. */
  lemma WalkIsSound(sysfs: Sysfs, target: DeviceId, walked: seq<DeviceId>, found: set<DeviceId>)
    requires WalkedFrom(sysfs, target, walked, found)
    ensures forall d | d in found :: Related(sysfs, target, d)
  {
    forall d | d in found
      ensures Related(sysfs, target, d)
    {
      var p := d;
      if d !in walked {
        p :| p in walked && DiskOf(sysfs, p) == Some(d);
      }
      WalkedIsReached(WithoutOwnDisk(sysfs, target), target, walked, p);
      if WithoutOwnDisk(sysfs, target) != sysfs {
        ReachesMore(sysfs, {DiskOf(sysfs, target).value}, target, p);
      }
    }
  }

  /** A device walked other than the target was led to by a device walked. */
  lemma {:induction false} WalkedIsLedTo(sysfs: Sysfs, target: DeviceId, walked: seq<DeviceId>, d: DeviceId)
    requires InOrder(sysfs, target, walked) && d in walked && d != target
    ensures IsLedToBySome(sysfs, walked, d)
  {
    var before := walked[..|walked| - 1];
    assert forall e | e in before :: e in walked;
    if d in before {
      WalkedIsLedTo(sysfs, target, before, d);
    }
  }

  /** In a tidy sysfs only the target's own disk is recorded without being walked. */
  lemma OnlyOwnDiskIsNotWalked(sysfs: Sysfs, target: DeviceId, walked: seq<DeviceId>, found: set<DeviceId>, d: DeviceId)
    requires Tidy(sysfs) && WalkedFrom(sysfs, target, walked, found)
    requires d in found && d !in walked
    ensures DiskOf(sysfs, target) == Some(d)
  {
    var p :| p in walked && DiskOf(sysfs, p) == Some(d);
    if p != target {
      WalkedIsLedTo(WithoutOwnDisk(sysfs, target), target, walked, p);
    }
  }

  lemma FoundIsClosed(sysfs: Sysfs, target: DeviceId, walked: seq<DeviceId>, found: set<DeviceId>, d: DeviceId)
    requires Tidy(sysfs) && WalkedFrom(sysfs, target, walked, found) && d in found
    ensures forall next | Leads(WithoutOwnDisk(sysfs, target), d, next) :: next in found
    ensures DiskOf(WithoutOwnDisk(sysfs, target), d).Some? ==> DiskOf(sysfs, d).value in found
  {
    if d !in walked {
      OnlyOwnDiskIsNotWalked(sysfs, target, walked, found, d);
    }
  }

  lemma TidyWalkIsExact(sysfs: Sysfs, target: DeviceId, walked: seq<DeviceId>, found: set<DeviceId>)
    requires Tidy(sysfs) && WalkedFrom(sysfs, target, walked, found)
    ensures forall d :: d in found <==> Related(WithoutOwnDisk(sysfs, target), target, d)
  {
    forall d
      ensures d in found <==> Related(WithoutOwnDisk(sysfs, target), target, d)
    {
      if d in found {
        FoundIsRelated(sysfs, target, walked, found, d);
      }
      if Related(WithoutOwnDisk(sysfs, target), target, d) {
        RelatedIsFound(sysfs, target, walked, found, d);
      }
    }
  }

  lemma FoundIsRelated(sysfs: Sysfs, target: DeviceId, walked: seq<DeviceId>, found: set<DeviceId>, d: DeviceId)
    requires Tidy(sysfs) && WalkedFrom(sysfs, target, walked, found) && d in found
    ensures Related(WithoutOwnDisk(sysfs, target), target, d)
  {
    var reach := WithoutOwnDisk(sysfs, target);
    if d in walked {
      WalkedIsReached(reach, target, walked, d);
    } else {
      OnlyOwnDiskIsNotWalked(sysfs, target, walked, found, d);
      ReachesItself(reach, target);
      TargetIsNotItsDisk(sysfs, target);
    }
  }

  lemma RelatedIsFound(sysfs: Sysfs, target: DeviceId, walked: seq<DeviceId>, found: set<DeviceId>, d: DeviceId)
    requires Tidy(sysfs) && WalkedFrom(sysfs, target, walked, found)
    requires Related(WithoutOwnDisk(sysfs, target), target, d)
    ensures d in found
  {
    var reach := WithoutOwnDisk(sysfs, target);
    forall e, next | e in found && Leads(reach, e, next)
      ensures next in found
    {
      FoundIsClosed(sysfs, target, walked, found, e);
    }
    if Reaches(reach, target, d) {
      ClosedContainsReached(reach, target, found, d);
    } else {
      var p :| Reaches(reach, target, p) && DiskOf(reach, p) == Some(d);
      ClosedContainsReached(reach, target, found, p);
      FoundIsClosed(sysfs, target, walked, found, p);
    }
  }

  // ---- When nothing is missed ----

  /** The target's own disk is not reached from it, or all it leads to is reached without it. */
  ghost predicate OwnDiskAddsNothing(sysfs: Sysfs, target: DeviceId) {
    DiskOf(sysfs, target).Some? ==>
      var disk := DiskOf(sysfs, target).value;
      && (Reaches(sysfs, target, disk) ==>
            forall next | Leads(sysfs, disk, next) :: Related(WithoutOwnDisk(sysfs, target), target, next))
  }

  lemma TargetIsNotItsDisk(sysfs: Sysfs, target: DeviceId)
    requires Tidy(sysfs) && DiskOf(sysfs, target).Some?
    ensures DiskOf(sysfs, target).value != target
    ensures WithoutOwnDisk(sysfs, target) == sysfs - {DiskOf(sysfs, target).value}
    ensures DiskOf(WithoutOwnDisk(sysfs, target), target) == DiskOf(sysfs, target)
  {
  }

  /** What the walk finds is everything related to the target exactly when its own disk adds nothing. */
  lemma NothingIsMissedExactlyWhen(sysfs: Sysfs, target: DeviceId)
    requires Tidy(sysfs)
    ensures (forall d :: Related(WithoutOwnDisk(sysfs, target), target, d) <==> Related(sysfs, target, d))
            <==> OwnDiskAddsNothing(sysfs, target)
  {
    if DiskOf(sysfs, target).Some? {
      TargetIsNotItsDisk(sysfs, target);
      var disk := DiskOf(sysfs, target).value;
      var reach := WithoutOwnDisk(sysfs, target);
      forall d | Related(reach, target, d)
        ensures Related(sysfs, target, d)
      {
        if Reaches(reach, target, d) {
          ReachesMore(sysfs, {disk}, target, d);
        } else {
          var p :| Reaches(reach, target, p) && DiskOf(reach, p) == Some(d);
          ReachesMore(sysfs, {disk}, target, p);
        }
      }
      if OwnDiskAddsNothing(sysfs, target) {
        forall d | Related(sysfs, target, d)
          ensures Related(reach, target, d)
        {
          MissesNothing(sysfs, target, d);
        }
      } else {
        var next :| Leads(sysfs, disk, next) && !Related(reach, target, next);
        ReachesNext(sysfs, target, disk, next);
        assert Related(sysfs, target, next);
      }
    }
  }

  /** Following partitions and holders never leads back. */
  ghost predicate Acyclic(sysfs: Sysfs) {
    forall path | IsPath(sysfs, path) && |path| > 1 :: path[0] != path[|path| - 1]
  }

  /** Without a cycle nothing is missed, given that the target's disk lists it. */
  lemma NothingIsMissedWithoutCycles(sysfs: Sysfs, target: DeviceId)
    requires Tidy(sysfs) && Acyclic(sysfs)
    requires DiskOf(sysfs, target).Some? ==> Leads(sysfs, DiskOf(sysfs, target).value, target)
    ensures forall d :: Related(WithoutOwnDisk(sysfs, target), target, d) <==> Related(sysfs, target, d)
  {
    if DiskOf(sysfs, target).Some? && Reaches(sysfs, target, DiskOf(sysfs, target).value) {
      LeadingBackIsACycle(sysfs, target, DiskOf(sysfs, target).value);
    }
    NothingIsMissedExactlyWhen(sysfs, target);
  }

  lemma LeadingBackIsACycle(sysfs: Sysfs, from: DeviceId, to: DeviceId)
    requires Reaches(sysfs, from, to) && Leads(sysfs, to, from)
    ensures !Acyclic(sysfs)
  {
    var path :| IsPath(sysfs, path) && path[0] == from && path[|path| - 1] == to;
    assert IsPath(sysfs, path + [from]) && |path + [from]| > 1;
  }

  /** A disk with two partitions, and a device on the first that the disk is itself stacked on. */
  function Stacked(disk: DeviceId, first: DeviceId, second: DeviceId, stacked: DeviceId): Sysfs {
    map[
      disk := Node(false, None, [first, second], []),
      first := Node(true, Some(disk), [], [stacked]),
      second := Node(true, Some(disk), [], []),
      stacked := Node(false, None, [], [disk])]
  }

  /** With a cycle something can be: the second partition is related to the first, and the walk misses it. */
  lemma SecondPartitionIsMissed(disk: DeviceId, first: DeviceId, second: DeviceId, stacked: DeviceId)
    requires disk != first && disk != second && disk != stacked
    requires first != second && first != stacked && second != stacked
    ensures var sysfs := Stacked(disk, first, second, stacked);
            && Tidy(sysfs) && Related(sysfs, first, second)
            && !Related(WithoutOwnDisk(sysfs, first), first, second)
  {
    var sysfs := Stacked(disk, first, second, stacked);
    ReachesItself(sysfs, first);
    ReachesNext(sysfs, first, first, stacked);
    ReachesNext(sysfs, first, stacked, disk);
    ReachesNext(sysfs, first, disk, second);
    SiblingsAreLeftOut(sysfs, first, disk, second);
  }

  /** What is recorded as a disk is not itself a partition. */
  lemma DisksHaveNoDisk(sysfs: Sysfs, target: DeviceId)
    requires Tidy(sysfs)
    ensures forall p, d | DiskOf(WithoutOwnDisk(sysfs, target), p) == Some(d) :: DiskOf(sysfs, d) == None
  {
    forall p, d | DiskOf(WithoutOwnDisk(sysfs, target), p) == Some(d)
      ensures DiskOf(sysfs, d) == None
    {
      assert DiskOf(sysfs, p) == Some(d);
    }
  }

  lemma MissesNothing(sysfs: Sysfs, target: DeviceId, d: DeviceId)
    requires Tidy(sysfs) && DiskOf(sysfs, target).Some? && OwnDiskAddsNothing(sysfs, target)
    requires Related(sysfs, target, d)
    ensures Related(WithoutOwnDisk(sysfs, target), target, d)
  {
    TargetIsNotItsDisk(sysfs, target);
    var disk := DiskOf(sysfs, target).value;
    var reach := WithoutOwnDisk(sysfs, target);
    ReachesItself(reach, target);
    if Reaches(sysfs, target, d) {
      ReachedIsRelated(sysfs, target, d);
    } else {
      var p :| Reaches(sysfs, target, p) && DiskOf(sysfs, p) == Some(d);
      ReachedIsRelated(sysfs, target, p);
      if !Reaches(reach, target, p) {
        DisksHaveNoDisk(sysfs, target);
        assert false;
      }
    }
  }

  lemma ReachedIsRelated(sysfs: Sysfs, target: DeviceId, d: DeviceId)
    requires Tidy(sysfs) && DiskOf(sysfs, target).Some? && OwnDiskAddsNothing(sysfs, target)
    requires Reaches(sysfs, target, d)
    ensures Related(WithoutOwnDisk(sysfs, target), target, d)
  {
    var path :| IsPath(sysfs, path) && path[0] == target && path[|path| - 1] == d;
    PathIsRelated(sysfs, target, path);
  }

  lemma {:induction false} PathIsRelated(sysfs: Sysfs, target: DeviceId, path: seq<DeviceId>)
    requires Tidy(sysfs) && DiskOf(sysfs, target).Some? && OwnDiskAddsNothing(sysfs, target)
    requires IsPath(sysfs, path) && path[0] == target
    ensures Related(WithoutOwnDisk(sysfs, target), target, path[|path| - 1])
  {
    TargetIsNotItsDisk(sysfs, target);
    var disk := DiskOf(sysfs, target).value;
    var reach := WithoutOwnDisk(sysfs, target);
    if |path| == 1 {
      ReachesItself(reach, target);
    } else {
      var before := path[..|path| - 1];
      PathIsRelated(sysfs, target, before);
      var via, d := path[|path| - 2], path[|path| - 1];
      assert Reaches(sysfs, target, via) by {
        assert IsPath(sysfs, before) && before[0] == target && before[|before| - 1] == via;
      }
      if via != disk && !Reaches(reach, target, via) {
        var q :| Reaches(reach, target, q) && DiskOf(reach, q) == Some(via);
        DiskOfReachedIsReached(sysfs, target, q, via);
      }
      if via != disk {
        ReachesNext(reach, target, via, d);
      }
    }
  }

  /** The disk of a partition reached after the target was reached before it. */
  lemma DiskOfReachedIsReached(sysfs: Sysfs, target: DeviceId, q: DeviceId, disk: DeviceId)
    requires Tidy(sysfs)
    requires var reach := WithoutOwnDisk(sysfs, target); Reaches(reach, target, q) && DiskOf(reach, q) == Some(disk)
    ensures DiskOf(sysfs, target) == Some(disk) || Reaches(WithoutOwnDisk(sysfs, target), target, disk)
  {
    var reach := WithoutOwnDisk(sysfs, target);
    if q != target {
      var via := ReachedFrom(reach, target, q);
      assert via == disk;
    }
  }

  /** Sibling partitions are left out, unless something stacked on the target leads back to its disk. */
  lemma SiblingsAreLeftOut(sysfs: Sysfs, target: DeviceId, disk: DeviceId, sibling: DeviceId)
    requires Tidy(sysfs) && DiskOf(sysfs, target) == Some(disk)
    requires disk in sysfs && sibling in sysfs && sibling in sysfs[disk].partitions && sibling != target
    ensures !Related(WithoutOwnDisk(sysfs, target), target, sibling)
  {
    TargetIsNotItsDisk(sysfs, target);
    DisksHaveNoDisk(sysfs, target);
    var reach := WithoutOwnDisk(sysfs, target);
    if Reaches(reach, target, sibling) {
      var via := ReachedFrom(reach, target, sibling);
      assert false;
    }
  }
}
