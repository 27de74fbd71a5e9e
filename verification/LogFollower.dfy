/**
 The `log --watch` loop of the client (updatehub/src/main.rs): it polls the agent for its log and
 prints what it has not printed yet, going by the absolute index of each entry.
 */
module LogFollower {
  import opened LogBuffer

  /** The answer to one poll. */
  datatype Snapshot = Snapshot(entries: seq<LogRecord>, firstIndex: nat)
  {
    function End(): nat {
      firstIndex + |entries|
    }

    predicate Covers(index: nat) {
      firstIndex <= index < End()
    }
  }

  datatype Line = Line(index: nat, entry: LogRecord)

  /** The entries of a snapshot from absolute index `from` on. */
  function LinesFrom(log: Snapshot, from: nat): (lines: seq<Line>)
    requires log.firstIndex <= from
    ensures forall i | 0 <= i < |lines| ::
              log.Covers(lines[i].index) && lines[i].entry == log.entries[lines[i].index - log.firstIndex]
    ensures forall i | 0 <= i < |lines| :: lines[i].index == from + i
    ensures |lines| == if from < log.End() then log.End() - from else 0
    decreases log.End() - from
  {
    if from < log.End() then [Line(from, log.entries[from - log.firstIndex])] + LinesFrom(log, from + 1) else []
  }

  function Max(a: nat, b: nat): nat {
    if a < b then b else a
  }

  /** Where the loop resumes after a number of passes. */
  function Next(polls: seq<Snapshot>): nat {
    if polls == [] then 0 else polls[|polls| - 1].End()
  }

  /** Everything printed by a number of passes. */
  function Printed(polls: seq<Snapshot>): seq<Line> {
    if polls == [] then []
    else
      var before, log := polls[..|polls| - 1], polls[|polls| - 1];
      Printed(before) + LinesFrom(log, Max(Next(before), log.firstIndex))
  }

  /** The watch loop over the answers it gets. Its subtraction is safe for any answers. */
  method Watch(polls: seq<Snapshot>) returns (printed: seq<Line>)
    ensures printed == Printed(polls)
  {
    printed := [];
    var next: nat := 0;
    for k := 0 to |polls|
      invariant next == Next(polls[..k])
      invariant printed == Printed(polls[..k])
    {
      var log := polls[k];
      assert polls[..k + 1][..k] == polls[..k];
      next := Max(next, log.firstIndex);
      var lines := PrintSkipping(log, next - log.firstIndex);
      printed := printed + lines;
      next := log.End();
    }
    assert polls[..|polls|] == polls;
  }

  /** Prints the entries of a snapshot but for the first few. */
  method PrintSkipping(log: Snapshot, skip: nat) returns (lines: seq<Line>)
    ensures lines == LinesFrom(log, log.firstIndex + skip)
  {
    hide LinesFrom;
    lines := [];
    for i := skip to if skip < |log.entries| then |log.entries| else skip
      invariant |lines| == i - skip
      invariant forall k | 0 <= k < |lines| :: lines[k] == Line(log.firstIndex + skip + k, log.entries[skip + k])
    {
      lines := lines + [Line(log.firstIndex + i, log.entries[i])];
    }
  }

  /** Successive snapshots of one agent process: neither end of the buffer moves back. */
  ghost predicate Advancing(polls: seq<Snapshot>) {
    forall k | 0 < k < |polls| ::
      polls[k - 1].firstIndex <= polls[k].firstIndex && polls[k - 1].End() <= polls[k].End()
  }

  ghost predicate Increasing(lines: seq<Line>) {
    forall i, j | 0 <= i < j < |lines| :: lines[i].index < lines[j].index
  }

  ghost predicate Prints(lines: seq<Line>, index: nat) {
    exists i :: 0 <= i < |lines| && lines[i].index == index
  }

  ghost predicate Seen(polls: seq<Snapshot>, index: nat) {
    exists k :: 0 <= k < |polls| && polls[k].Covers(index)
  }

  /** Some snapshot held this entry under this index. */
  ghost predicate Shown(polls: seq<Snapshot>, line: Line) {
    exists k :: 0 <= k < |polls| && ShownBy(polls[k], line)
  }

  predicate ShownBy(log: Snapshot, line: Line) {
    log.Covers(line.index) && log.entries[line.index - log.firstIndex] == line.entry
  }

  /** What is printed is what a snapshot held, for any answers. */
  lemma {:induction false} PrintsWhatIsShown(polls: seq<Snapshot>, line: Line)
    requires line in Printed(polls)
    ensures Shown(polls, line)
  {
    hide LinesFrom;
    if polls != [] {
      var before, log := polls[..|polls| - 1], polls[|polls| - 1];
      if line in Printed(before) {
        PrintsWhatIsShown(before, line);
        var k :| 0 <= k < |before| && ShownBy(before[k], line);
        assert ShownBy(polls[k], line);
      } else {
        assert line in LinesFrom(log, Max(Next(before), log.firstIndex));
        assert ShownBy(polls[|polls| - 1], line);
      }
    }
  }

  lemma SeenSplits(polls: seq<Snapshot>, index: nat)
    requires polls != []
    ensures Seen(polls, index) <==> Seen(polls[..|polls| - 1], index) || polls[|polls| - 1].Covers(index)
  {
    var before := polls[..|polls| - 1];
    if Seen(before, index) {
      var k :| 0 <= k < |before| && before[k].Covers(index);
      assert polls[k].Covers(index);
    }
    if Seen(polls, index) && !polls[|polls| - 1].Covers(index) {
      var k :| 0 <= k < |polls| && polls[k].Covers(index);
      assert before[k].Covers(index);
    }
  }

  lemma PrintsSplits(front: seq<Line>, back: seq<Line>, index: nat)
    ensures Prints(front + back, index) <==> Prints(front, index) || Prints(back, index)
  {
    if Prints(front, index) {
      var i :| 0 <= i < |front| && front[i].index == index;
      assert (front + back)[i].index == index;
    }
    if Prints(back, index) {
      var i :| 0 <= i < |back| && back[i].index == index;
      assert (front + back)[|front| + i].index == index;
    }
  }

  lemma LinesFromPrints(log: Snapshot, from: nat, index: nat)
    requires log.firstIndex <= from
    ensures Prints(LinesFrom(log, from), index) <==> from <= index < log.End()
  {
    if from <= index < log.End() {
      assert LinesFrom(log, from)[index - from].index == index;
    }
  }

  lemma {:induction false} PrintsEachIndexOnce(polls: seq<Snapshot>)
    requires Advancing(polls)
    ensures Increasing(Printed(polls))
    ensures forall index: nat :: Prints(Printed(polls), index) <==> Seen(polls, index)
    ensures forall index: nat | Seen(polls, index) :: index < Next(polls)
  {
    if polls != [] {
      var before, log := polls[..|polls| - 1], polls[|polls| - 1];
      PrintsEachIndexOnce(before);
      var from := Max(Next(before), log.firstIndex);
      var lines := LinesFrom(log, from);
      forall index: nat
        ensures Prints(Printed(polls), index) <==> Seen(polls, index)
        ensures Seen(polls, index) ==> index < Next(polls)
      {
        SeenSplits(polls, index);
        PrintsSplits(Printed(before), lines, index);
        LinesFromPrints(log, from, index);
        if log.Covers(index) && index < from {
          assert before[|before| - 1].Covers(index);
          assert Seen(before, index);
        }
      }
      forall i | 0 <= i < |Printed(before)|
        ensures Printed(before)[i].index < from
      {
        assert Prints(Printed(before), Printed(before)[i].index);
      }
    }
  }

  /** Every index that appeared in some snapshot is printed, once, in increasing order; nothing else is. And
      what is printed under it is what a snapshot held there. */
  lemma PrintsExactlyOnce(polls: seq<Snapshot>)
    requires Advancing(polls)
    ensures Increasing(Printed(polls))
    ensures forall index: nat :: Prints(Printed(polls), index) <==> Seen(polls, index)
    ensures forall line | line in Printed(polls) :: Shown(polls, line)
  {
    PrintsEachIndexOnce(polls);
    hide *;
    forall line | line in Printed(polls)
      ensures Shown(polls, line)
    {
      PrintsWhatIsShown(polls, line);
    }
  }

  // ---- Following the agent ----

  function Flatten(batches: seq<seq<Event>>): seq<Event> {
    if batches == [] then [] else Flatten(batches[..|batches| - 1]) + batches[|batches| - 1]
  }

  ghost function Take(r: Records): Snapshot
    requires r.Counted()
  {
    Snapshot(r.entries, r.FirstIndex())
  }

  /** What the client gets when the agent handles one batch of events before each poll. */
  ghost function Polls(batches: seq<seq<Event>>): (polls: seq<Snapshot>)
    ensures |polls| == |batches|
  {
    if batches == [] then []
    else Polls(batches[..|batches| - 1]) + [Take(Run(Flatten(batches)).records)]
  }

  lemma AdvancingAppends(polls: seq<Snapshot>, next: Snapshot)
    requires Advancing(polls)
    requires polls != [] ==> polls[|polls| - 1].firstIndex <= next.firstIndex && polls[|polls| - 1].End() <= next.End()
    ensures Advancing(polls + [next])
  {
  }

  lemma {:induction false} AgentAdvances(batches: seq<seq<Event>>)
    ensures Advancing(Polls(batches))
    ensures batches != [] ==> Polls(batches)[|batches| - 1] == Take(Run(Flatten(batches)).records)
  {
    if batches != [] {
      var before := batches[..|batches| - 1];
      AgentAdvances(before);
      IndicesAreStable(Flatten(before), batches[|batches| - 1]);
      AdvancingAppends(Polls(before), Take(Run(Flatten(batches)).records));
    }
  }

  /** The buffer of the agent after the first `k` batches. */
  ghost function HeldAfter(batches: seq<seq<Event>>, k: nat): (r: Records)
    requires k <= |batches|
    ensures r.Counted()
  {
    Run(Flatten(batches[..k])).records
  }

  lemma {:induction false} PollTakesWhatIsHeld(batches: seq<seq<Event>>, k: nat)
    requires k < |batches|
    ensures Polls(batches)[k] == Take(HeldAfter(batches, k + 1))
  {
    hide Run;
    var before := batches[..|batches| - 1];
    if k == |batches| - 1 {
      assert batches[..k + 1] == batches;
    } else {
      PollTakesWhatIsHeld(before, k);
      assert before[..k + 1] == batches[..k + 1];
    }
  }

  lemma {:induction false} FlattenSplits(batches: seq<seq<Event>>, j: nat, k: nat)
    requires j <= k <= |batches|
    ensures Flatten(batches[..k]) == Flatten(batches[..j]) + Flatten(batches[j..k])
  {
    if j == k {
      assert batches[j..k] == [];
    } else {
      FlattenSplits(batches, j, k - 1);
      assert batches[..k][..k - 1] == batches[..k - 1];
      assert batches[j..k][..k - j - 1] == batches[j..k - 1];
    }
  }

  /** The buffer holds this very entry under its index. */
  ghost predicate HoldsLine(r: Records, line: Line) {
    Holds(r, line.index) && At(r, line.index) == line.entry
  }

  /** If the buffer holds the index of the line, it is under the same record, up to how often it was counted. */
  ghost predicate Agrees(r: Records, line: Line) {
    Holds(r, line.index) ==> line.entry == At(r, line.index).(count := line.entry.count)
  }

  lemma SnapshotHolds(r: Records, line: Line)
    requires r.Counted() && ShownBy(Take(r), line)
    ensures HoldsLine(r, line)
  {
  }

  lemma IndicesAgree(events: seq<Event>, more: seq<Event>, line: Line)
    ensures HoldsLine(Run(events).records, line) ==> Agrees(Run(events + more).records, line)
    ensures HoldsLine(Run(events + more).records, line) ==> Agrees(Run(events).records, line)
  {
    IndicesAreStable(events, more);
    hide Run;
  }

  lemma RecordsAgree(batches: seq<seq<Event>>, j: nat, k: nat, line: Line)
    requires j <= |batches| && k <= |batches| && HoldsLine(HeldAfter(batches, k), line)
    ensures Agrees(HeldAfter(batches, j), line)
  {
    hide Run, Flatten, HoldsLine, Agrees;
    var first, last := if j <= k then j else k, if j <= k then k else j;
    FlattenSplits(batches, first, last);
    IndicesAgree(Flatten(batches[..first]), Flatten(batches[first..last]), line);
  }

  lemma PrintedWasHeld(batches: seq<seq<Event>>, line: Line) returns (k: nat)
    requires line in Printed(Polls(batches))
    ensures k <= |batches| && HoldsLine(HeldAfter(batches, k), line)
  {
    hide *;
    PrintsWhatIsShown(Polls(batches), line);
    k := ShownAt(Polls(batches), line);
    PollTakesWhatIsHeld(batches, k);
    SnapshotHolds(HeldAfter(batches, k + 1), line);
    k := k + 1;
  }

  lemma ShownAt(polls: seq<Snapshot>, line: Line) returns (k: nat)
    requires Shown(polls, line)
    ensures k < |polls| && ShownBy(polls[k], line)
  {
    k :| k < |polls| && ShownBy(polls[k], line);
  }

  /** A printed line is what the agent held under that index at some poll, and it agrees with what the agent
      holds under that index at any other. */
  lemma PrintedIsTheAgentsRecord(batches: seq<seq<Event>>, line: Line)
    requires line in Printed(Polls(batches))
    ensures exists k: nat :: k <= |batches| && HoldsLine(HeldAfter(batches, k), line)
    ensures forall j: nat | j <= |batches| :: Agrees(HeldAfter(batches, j), line)
  {
    hide *;
    var k := PrintedWasHeld(batches, line);
    forall j: nat | j <= |batches|
      ensures Agrees(HeldAfter(batches, j), line)
    {
      RecordsAgree(batches, j, k, line);
    }
  }

  /** For any interleaving of log events and polls of one agent process: every index that was seen is printed
      once and in order, with the record the agent has under it. */
  lemma FollowerPrintsExactlyOnce(batches: seq<seq<Event>>)
    ensures Increasing(Printed(Polls(batches)))
    ensures forall index: nat :: Prints(Printed(Polls(batches)), index) <==> Seen(Polls(batches), index)
    ensures forall line, j: nat | line in Printed(Polls(batches)) && j <= |batches| ::
              Agrees(HeldAfter(batches, j), line)
  {
    hide *;
    AgentAdvances(batches);
    PrintsExactlyOnce(Polls(batches));
    forall line | line in Printed(Polls(batches))
      ensures forall j: nat | j <= |batches| :: Agrees(HeldAfter(batches, j), line)
    {
      PrintedIsTheAgentsRecord(batches, line);
    }
  }

  // ---- When the agent restarts ----

  /** What the loop prints over further answers, when it was to resume at `next`. */
  function PrintedFrom(next: nat, polls: seq<Snapshot>): seq<Line> {
    if polls == [] then []
    else
      var before, log := polls[..|polls| - 1], polls[|polls| - 1];
      PrintedFrom(next, before) + LinesFrom(log, Max(if before == [] then next else Next(before), log.firstIndex))
  }

  lemma OneMorePoll(next: nat, polls: seq<Snapshot>, log: Snapshot)
    ensures Printed(polls + [log]) == Printed(polls) + LinesFrom(log, Max(Next(polls), log.firstIndex))
    ensures var from := if polls == [] then next else Next(polls);
            PrintedFrom(next, polls + [log]) == PrintedFrom(next, polls) + LinesFrom(log, Max(from, log.firstIndex))
  {
    hide LinesFrom;
    assert (polls + [log])[..|polls|] == polls;
  }

  lemma NextOfBoth(earlier: seq<Snapshot>, later: seq<Snapshot>)
    ensures Next(earlier + later) == if later == [] then Next(earlier) else Next(later)
  {
    assert later == [] ==> earlier + later == earlier;
  }

  lemma NothingMore(next: nat)
    ensures PrintedFrom(next, []) == []
  {
  }

  lemma {:induction false} PrintedGoesOn(earlier: seq<Snapshot>, later: seq<Snapshot>)
    ensures Printed(earlier + later) == Printed(earlier) + PrintedFrom(Next(earlier), later)
  {
    hide *;
    if later == [] {
      assert earlier + later == earlier;
      NothingMore(Next(earlier));
    } else {
      var before, log := later[..|later| - 1], later[|later| - 1];
      PrintedGoesOn(earlier, before);
      NextOfBoth(earlier, before);
      OneMorePoll(Next(earlier), before, log);
      OneMorePoll(Next(earlier), earlier + before, log);
      assert later == before + [log] && earlier + later == earlier + before + [log];
    }
  }

  lemma {:induction false} PrintedFromMisses(next: nat, polls: seq<Snapshot>, index: nat)
    requires Advancing(polls)
    ensures Prints(PrintedFrom(next, polls), index) <==>
            Seen(polls, index) && !(polls[0].Covers(index) && index < next)
    ensures Seen(polls, index) ==> index < Next(polls)
  {
    hide LinesFrom;
    if polls != [] {
      var before, log := polls[..|polls| - 1], polls[|polls| - 1];
      var from := Max(if before == [] then next else Next(before), log.firstIndex);
      PrintedFromMisses(next, before, index);
      SeenSplits(polls, index);
      PrintsSplits(PrintedFrom(next, before), LinesFrom(log, from), index);
      LinesFromPrints(log, from, index);
      if before != [] && log.Covers(index) && index < Next(before) {
        assert before[|before| - 1].Covers(index);
        assert Seen(before, index);
      }
    }
  }

  /** After a restart the indices start over. Nothing of the new process is missed exactly if its first answer
      is empty or starts where the loop is to resume; what is missed is what the first answer holds below. */
  lemma RestartMissesNothingExactlyWhen(earlier: seq<Snapshot>, later: seq<Snapshot>)
    requires Advancing(later) && later != []
    ensures Printed(earlier + later) == Printed(earlier) + PrintedFrom(Next(earlier), later)
    ensures forall index: nat :: Prints(PrintedFrom(Next(earlier), later), index) <==>
                                 Seen(later, index) && !(later[0].Covers(index) && index < Next(earlier))
    ensures (forall index: nat | Seen(later, index) :: Prints(PrintedFrom(Next(earlier), later), index)) <==>
            later[0].entries == [] || later[0].firstIndex >= Next(earlier)
  {
    hide Printed, PrintedFrom, Next, Prints;
    PrintedGoesOn(earlier, later);
    forall index: nat
      ensures Prints(PrintedFrom(Next(earlier), later), index) <==>
              Seen(later, index) && !(later[0].Covers(index) && index < Next(earlier))
    {
      PrintedFromMisses(Next(earlier), later, index);
    }
    if later[0].entries != [] && later[0].firstIndex < Next(earlier) {
      assert later[0].Covers(later[0].firstIndex);
      assert Seen(later, later[0].firstIndex);
    }
  }

  /** The hypothesis is needed: after the agent restarts, its indices start over and `c` is missed. */
  lemma RestartIsNotFollowed(a: LogRecord, b: LogRecord, c: LogRecord, d: LogRecord)
    ensures var polls := [Snapshot([a, b], 0), Snapshot([c], 0), Snapshot([c, d], 0)];
            Printed(polls) == [Line(0, a), Line(1, b), Line(1, d)]
  {
    var one, two, three := Snapshot([a, b], 0), Snapshot([c], 0), Snapshot([c, d], 0);
    assert [one, two, three][..2] == [one, two] && [one, two][..1] == [one] && [one][..0] == [];
    assert LinesFrom(one, 2) == [] && LinesFrom(one, 1) == [Line(1, b)];
    assert LinesFrom(one, 0) == [Line(0, a), Line(1, b)];
    assert LinesFrom(two, 2) == [];
    assert LinesFrom(three, 2) == [] && LinesFrom(three, 1) == [Line(1, d)];
    assert Printed([one]) == [Line(0, a), Line(1, b)];
    assert Printed([one, two]) == [Line(0, a), Line(1, b)];
  }
}
