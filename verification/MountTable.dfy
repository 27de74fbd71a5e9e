/**
 The check that no mounted filesystem lives on a target (updatehub/src/utils/fs.rs), over the text
 of /proc/self/mountinfo.
 */
module MountTable {
  import opened BlockDevices
  import opened Text
  import opened Wrappers

  datatype MountEntry = MountEntry(device: DeviceId, source: string, mountPoint: string)

  function IndexOf(fields: seq<string>, field: string): (index: Option<nat>)
    ensures index.Some? ==> index.value < |fields| && fields[index.value] == field
    ensures index.Some? ==> forall j | 0 <= j < index.value :: fields[j] != field
    ensures index.None? ==> field !in fields
  {
    if fields == [] then None
    else if fields[0] == field then Some(0)
    else
      match IndexOf(fields[1..], field)
      case None => None
      case Some(index) => Some(index + 1)
  }

  function ParseDevice(field: string): Option<DeviceId> {
    match SplitOnce(field, ':')
    case None => None
    case Some((major, minor)) =>
      if ParseU64(major).Some? && ParseU64(minor).Some?
      then Some(DeviceId(ParseU64(major).value, ParseU64(minor).value))
      else None
  }

  /** Source and separator are two words apart, however many optional words stand before them. */
  function ParseMountEntry(line: string): Option<MountEntry> {
    var fields := SplitWhitespace(line);
    var separator := IndexOf(fields, "-");
    if separator.None? || |fields| <= 2 || ParseDevice(fields[2]).None? then None
    else if |fields| <= separator.value + 2 || |fields| <= 4 then None
    else Some(MountEntry(ParseDevice(fields[2]).value, fields[separator.value + 2], fields[4]))
  }

  /** A line of mountinfo as the kernel writes it. */
  datatype MountLine = MountLine(
    id: string, parentId: string, device: DeviceId, root: string, mountPoint: string, options: string,
    optional: seq<string>, fsType: string, source: string, superOptions: string)
  {
    function Before(): seq<string> {
      [id, parentId, Decimal(device.major) + ":" + Decimal(device.minor), root, mountPoint, options] + optional
    }

    function Fields(): seq<string> {
      Before() + ["-", fsType, source, superOptions]
    }

    ghost predicate WellFormed() {
      && device.major <= U64_MAX && device.minor <= U64_MAX
      && (forall field | field in Fields() :: IsWord(field))
      && "-" !in Before()
    }
  }

  lemma ParseDeviceOf(device: DeviceId)
    requires device.major <= U64_MAX && device.minor <= U64_MAX
    ensures ParseDevice(Decimal(device.major) + ":" + Decimal(device.minor)) == Some(device)
  {
    SplitOnceOf(Decimal(device.major), ':', Decimal(device.minor));
    ParseDecimal(device.major);
    ParseDecimal(device.minor);
  }

  lemma IndexOfSeparator(front: seq<string>, field: string, back: seq<string>)
    requires field !in front
    ensures IndexOf(front + [field] + back, field) == Some(|front|)
  {
    var fields := front + [field] + back;
    assert fields[|front|] == field;
    assert forall j | 0 <= j < |front| :: fields[j] == front[j];
  }

  /** Whatever the optional fields, parsing a line gives back its device, source and mount point. */
  lemma ParseReadsBack(line: MountLine)
    requires line.WellFormed()
    ensures ParseMountEntry(Join(line.Fields(), " ")) == Some(MountEntry(line.device, line.source, line.mountPoint))
  {
    SplitJoin(line.Fields());
    ParseDeviceOf(line.device);
    var tail := [line.fsType, line.source, line.superOptions];
    IndexOfSeparator(line.Before(), "-", tail);
    assert line.Fields() == line.Before() + ["-"] + tail;
  }

  function Entries(lines: seq<string>): (entries: seq<MountEntry>)
  {
    if lines == [] then []
    else
      var before := Entries(lines[..|lines| - 1]);
      match ParseMountEntry(lines[|lines| - 1])
      case None => before
      case Some(entry) => before + [entry]
  }

  // ---- The check ----

  /** What asking for the metadata of a path may give; `block` is the number of a block device. */
  datatype Stat = Missing | Failed | Found(block: Option<DeviceId>)

  datatype Usage = Free | InUse(mountPoint: string) | IoError

  function BlockOf(stat: Stat): set<DeviceId> {
    if stat.Found? && stat.block.Some? then {stat.block.value} else {}
  }

  function StatOf(stats: map<string, Stat>, path: string): Stat {
    if path in stats then stats[path] else Missing
  }

  /** The block devices whose storage is looked at: the target's own, and those of its named sources. */
  ghost predicate IsSeed(target: Stat, sources: set<string>, stats: map<string, Stat>, seed: DeviceId) {
    || seed in BlockOf(target)
    || exists source :: IsSeedOf(sources, stats, source, seed)
  }

  ghost predicate IsSeedOf(sources: set<string>, stats: map<string, Stat>, source: string, seed: DeviceId) {
    source in sources && source != "" && source[0] == '/' && seed in BlockOf(StatOf(stats, source))
  }

  /** `d` is related to some seed; `exact` leaves out what only the seed's own disk would lead to. */
  ghost predicate SharesStorage(
    sysfs: Sysfs, target: Stat, sources: set<string>, stats: map<string, Stat>, d: DeviceId, exact: bool) {
    exists seed :: IsSeed(target, sources, stats, seed)
                   && Related(if exact then WithoutOwnDisk(sysfs, seed) else sysfs, seed, d)
  }

  /** Writing to the target damages what the entry mounts. */
  ghost predicate Endangers(
    sysfs: Sysfs, target: Stat, sources: set<string>, stats: map<string, Stat>, entry: MountEntry, exact: bool) {
    entry.source in sources || SharesStorage(sysfs, target, sources, stats, entry.device, exact)
  }

  method CollectDevices(sysfs: Sysfs, target: Stat, sources: set<string>, stats: map<string, Stat>)
    returns (devices: set<DeviceId>)
    ensures forall d | d in devices :: SharesStorage(sysfs, target, sources, stats, d, false)
    ensures Tidy(sysfs) ==> forall d :: d in devices <==> SharesStorage(sysfs, target, sources, stats, d, true)
  {
    devices := {};
    ghost var seeds: set<DeviceId> := {};
    if target.Found? && target.block.Some? {
      ghost var walked;
      devices, walked := RelatedBlockDevices(sysfs, target.block.value);
      seeds := {target.block.value};
    }
    var left := sources;
    while left != {}
      invariant left <= sources
      invariant forall seed :: seed in seeds <==>
          seed in BlockOf(target) || exists source :: source !in left && IsSeedOf(sources, stats, source, seed)
      invariant forall d | d in devices :: exists seed :: seed in seeds && Related(sysfs, seed, d)
      invariant Tidy(sysfs) ==> forall d :: d in devices <==>
          exists seed :: seed in seeds && Related(WithoutOwnDisk(sysfs, seed), seed, d)
      decreases left
    {
      var source :| source in left;
      ghost var rest := left;
      left := left - {source};
      if source != "" && source[0] == '/' && StatOf(stats, source).Found? && StatOf(stats, source).block.Some? {
        var seed := StatOf(stats, source).block.value;
        var related, walked := RelatedBlockDevices(sysfs, seed);
        devices := devices + related;
        seeds := seeds + {seed};
        assert IsSeedOf(sources, stats, source, seed);
      }
    }
    assert forall seed :: seed in seeds <==> IsSeed(target, sources, stats, seed);
  }

  predicate Uses(entry: MountEntry, devices: set<DeviceId>, sources: set<string>) {
    entry.device in devices || entry.source in sources
  }

  method FindMounted(lines: seq<string>, devices: set<DeviceId>, sources: set<string>) returns (found: Option<MountEntry>)
    ensures found.Some? ==> found.value in Entries(lines) && Uses(found.value, devices, sources)
    ensures found.None? ==> forall entry | entry in Entries(lines) :: !Uses(entry, devices, sources)
  {
    for i := 0 to |lines|
      invariant forall entry | entry in Entries(lines[..i]) :: !Uses(entry, devices, sources)
    {
      assert lines[..i + 1][..i] == lines[..i];
      var parsed := ParseMountEntry(lines[i]);
      if parsed.Some? && Uses(parsed.value, devices, sources) {
        EntryIsListed(lines, i);
        return parsed;
      }
    }
    assert lines[..|lines|] == lines;
    return None;
  }

  /** The refusal is sound for any sysfs, and exact for a tidy one. */
  method EnsureNotMounted(
    sysfs: Sysfs, target: Stat, sources: set<string>, stats: map<string, Stat>, mountinfo: Option<string>)
    returns (usage: Usage)
    ensures target.Missing? ==> usage == Free
    ensures target.Failed? || (target.Found? && mountinfo.None?) ==> usage == IoError
    ensures target.Found? && mountinfo.Some? ==> !usage.IoError?
    ensures usage.InUse? ==> mountinfo.Some? && exists entry ::
              && entry in Entries(Lines(mountinfo.value)) && entry.mountPoint == usage.mountPoint
              && Endangers(sysfs, target, sources, stats, entry, false)
    ensures Tidy(sysfs) && target.Found? && mountinfo.Some? ==>
              (usage.InUse? <==> exists entry ::
                 entry in Entries(Lines(mountinfo.value)) && Endangers(sysfs, target, sources, stats, entry, true))
  {
    if target.Missing? {
      return Free;
    }
    if target.Failed? {
      return IoError;
    }
    var devices := CollectDevices(sysfs, target, sources, stats);
    if mountinfo.None? {
      return IoError;
    }
    var found := FindMounted(Lines(mountinfo.value), devices, sources);
    if Tidy(sysfs) {
      assert forall entry :: Uses(entry, devices, sources) <==> Endangers(sysfs, target, sources, stats, entry, true);
    }
    return if found.Some? then InUse(found.value.mountPoint) else Free;
  }

  lemma {:induction false} EntryIsListed(lines: seq<string>, i: nat)
    requires i < |lines| && ParseMountEntry(lines[i]).Some?
    ensures ParseMountEntry(lines[i]).value in Entries(lines)
  {
    if i < |lines| - 1 {
      EntryIsListed(lines[..|lines| - 1], i);
    }
  }

  /** A filesystem on a sibling partition does not keep a partition from being written. */
  lemma MountedSiblingIsHarmless(sysfs: Sysfs, target: DeviceId, disk: DeviceId, entry: MountEntry)
    requires Tidy(sysfs) && DiskOf(sysfs, target) == Some(disk)
    requires disk in sysfs && entry.device in sysfs && entry.device in sysfs[disk].partitions && entry.device != target
    ensures !Endangers(sysfs, Found(Some(target)), {}, map[], entry, true)
  {
    SiblingsAreLeftOut(sysfs, target, disk, entry.device);
  }

  /** A line is an entry exactly if it has five words, the third is a pair of numbers, and two words follow the
      first lone dash; it then names the third, the fifth, and the second after the dash. */
  lemma EntryParsesExactlyWhen(line: string, dash: nat)
    requires var fields := SplitWhitespace(line);
             dash <= |fields| && (forall i | 0 <= i < dash :: fields[i] != "-") && (dash < |fields| ==> fields[dash] == "-")
    ensures var fields, entry := SplitWhitespace(line), ParseMountEntry(line);
            && (entry.Some? <==> |fields| > 4 && dash + 2 < |fields| && ParseDevice(fields[2]).Some?)
            && (entry.Some? ==> entry.value == MountEntry(ParseDevice(fields[2]).value, fields[dash + 2], fields[4]))
  {
    var fields := SplitWhitespace(line);
    assert "-" in fields <==> dash < |fields|;
  }
}
