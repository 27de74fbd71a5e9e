/**
 The in-memory log of the agent (updatehub/src/mem_drain.rs): a buffer that counts consecutive
 repeats, keeps its byte count incrementally and evicts its oldest entries once over the bound.

 `Push`, `Evict` and `Step` say what one operation does to the buffer. `RunLength` and `Retained`
 are an offline account of the same thing, made from the whole history at once.
 */
module LogBuffer {

  newtype Byte = b: int | 0 <= b < 0x100

  /** Rust strings are measured in bytes. */
  type Utf8 = seq<Byte>

  const MAX_RECORDED_BYTES: nat := 1024 * 1024

  /** What one record takes besides its text; it depends on the platform, so any value is allowed. */
  const RECORD_HEADER_BYTES: nat

  datatype LogRecord = LogRecord(level: Utf8, message: Utf8, time: Utf8, data: map<Utf8, Utf8>, count: nat)
  {
    /** The time of a record and how often it was counted do not tell records apart. */
    predicate Repeats(other: LogRecord) {
      level == other.level && message == other.message && data == other.data
    }

    ghost function Size(): nat {
      RECORD_HEADER_BYTES + |level| + |message| + |time| + DataBytes(data)
    }
  }

  ghost function DataBytes(data: map<Utf8, Utf8>): nat {
    if data == map[] then 0
    else
      var key :| key in data;
      |key| + |data[key]| + DataBytes(data - {key})
  }

  /** The sum does not depend on the order in which the pairs are visited. */
  lemma {:induction false} DataBytesRemoves(data: map<Utf8, Utf8>, key: Utf8)
    requires key in data
    ensures DataBytes(data) == |key| + |data[key]| + DataBytes(data - {key})
    decreases |data|
  {
    var first :| first in data && DataBytes(data) == |first| + |data[first]| + DataBytes(data - {first});
    if first != key {
      DataBytesRemoves(data - {first}, key);
      DataBytesRemoves(data - {key}, first);
      assert data - {first} - {key} == data - {key} - {first};
    }
  }

  /** Every byte of text counts once, and so does the record itself. */
  lemma SizeCountsEveryByte(r: LogRecord, key: Utf8, value: Utf8)
    requires key !in r.data
    ensures r.(level := [], message := [], time := [], data := map[]).Size() == RECORD_HEADER_BYTES
    ensures r.Size() == r.(level := []).Size() + |r.level| == r.(message := []).Size() + |r.message|
    ensures r.Size() == r.(time := []).Size() + |r.time|
    ensures r.(data := r.data[key := value]).Size() == r.Size() + |key| + |value|
  {
    DataBytesRemoves(r.data[key := value], key);
    assert r.data[key := value] - {key} == r.data;
  }

  datatype Records = Records(entries: seq<LogRecord>, bytes: nat, inserted: nat)
  {
    /** The byte counter is exact, and no entry is held that was not inserted. */
    ghost predicate Counted() {
      bytes == TotalBytes(entries) && |entries| <= inserted
    }

    /** Entries are numbered from the first ever inserted; this is the number of the front one. */
    function FirstIndex(): nat
      requires |entries| <= inserted
    {
      inserted - |entries|
    }
  }

  ghost function TotalBytes(entries: seq<LogRecord>): nat {
    if entries == [] then 0 else entries[0].Size() + TotalBytes(entries[1..])
  }

  lemma {:induction false} TotalBytesAppends(front: seq<LogRecord>, back: seq<LogRecord>)
    ensures TotalBytes(front + back) == TotalBytes(front) + TotalBytes(back)
  {
    if front == [] {
      assert front + back == back;
    } else {
      assert (front + back)[1..] == front[1..] + back;
      TotalBytesAppends(front[1..], back);
    }
  }

  /** `entries` with the repeat of its last record counted. */
  function CountRepeat(entries: seq<LogRecord>): (counted: seq<LogRecord>)
    requires entries != []
    ensures |counted| == |entries|
  {
    var last := |entries| - 1;
    entries[last := entries[last].(count := entries[last].count + 1)]
  }

  predicate RepeatsLast(entries: seq<LogRecord>, record: LogRecord) {
    entries != [] && entries[|entries| - 1].Repeats(record)
  }

  lemma CountRepeatSplits(runs: seq<LogRecord>)
    requires runs != []
    ensures var front, last := runs[..|runs| - 1], runs[|runs| - 1];
            && runs == front + [last]
            && CountRepeat(runs) == front + [last.(count := last.count + 1)]
  {
  }

  lemma CountRepeatKeepsBytes(entries: seq<LogRecord>)
    requires entries != []
    ensures TotalBytes(CountRepeat(entries)) == TotalBytes(entries)
  {
    var front, last := entries[..|entries| - 1], entries[|entries| - 1];
    CountRepeatSplits(entries);
    TotalBytesAppends(front, [last]);
    TotalBytesAppends(front, [last.(count := last.count + 1)]);
  }

  // ---- One operation ----

  ghost function Evict(r: Records): (r': Records)
    requires r.Counted()
    ensures r'.Counted() && r'.inserted == r.inserted
    decreases |r.entries|
  {
    if r.bytes > MAX_RECORDED_BYTES && |r.entries| > 1 then
      Evict(Records(r.entries[1..], r.bytes - r.entries[0].Size(), r.inserted))
    else
      r
  }

  ghost function Push(r: Records, record: LogRecord): (r': Records)
    requires r.Counted()
    ensures r'.Counted()
  {
    if RepeatsLast(r.entries, record) then
      CountRepeatKeepsBytes(r.entries);
      r.(entries := CountRepeat(r.entries))
    else
      TotalBytesAppends(r.entries, [record]);
      Evict(Records(r.entries + [record], r.bytes + record.Size(), r.inserted + 1))
  }

  function Clear(r: Records): Records {
    Records([], 0, r.inserted)
  }

  /** What reaches the drain: a log statement, or a change of the recording scope. */
  datatype Event =
    | Log(level: Utf8, message: Utf8, time: Utf8, data: map<Utf8, Utf8>)
    | Start
    | SetLogging(on: bool)

  function RecordOf(e: Event): LogRecord
    requires e.Log?
  {
    LogRecord(e.level, e.message, e.time, e.data, 1)
  }

  datatype Drain = Drain(records: Records, logging: bool)

  const NEW_DRAIN := Drain(Records([], 0, 0), false)

  ghost function Step(d: Drain, e: Event): (d': Drain)
    requires d.records.Counted()
    ensures d'.records.Counted()
  {
    match e
    case Log(_, _, _, _) => if d.logging then d.(records := Push(d.records, RecordOf(e))) else d
    case Start => Drain(Clear(d.records), true)
    case SetLogging(on) => d.(logging := on)
  }

  ghost function Run(events: seq<Event>): (d: Drain)
    ensures d.records.Counted()
  {
    if events == [] then NEW_DRAIN else Step(Run(events[..|events| - 1]), events[|events| - 1])
  }

  /** The scope of recording: a start discards and records, switching keeps what is held, and nothing is recorded
      while it is off. */
  lemma ScopeIsKept(events: seq<Event>, e: Event, on: bool)
    requires e.Log?
    ensures Run(events + [Start]).records.entries == [] && Run(events + [Start]).logging
    ensures Run(events + [SetLogging(on)]) == Run(events).(logging := on)
    ensures !Run(events).logging ==> Run(events + [e]) == Run(events)
    ensures Run(events).logging ==>
              var held := Run(events + [e]).records.entries;
              && held != []
              && held[|held| - 1].level == e.level && held[|held| - 1].message == e.message
              && held[|held| - 1].data == e.data
  {
    assert (events + [Start])[..|events|] == events && (events + [e])[..|events|] == events;
    assert (events + [SetLogging(on)])[..|events|] == events;
    if Run(events).logging {
      OnlineEqualsOffline(events + [e]);
      NewestIsLogged(events, e);
    }
  }

  lemma NewestIsLogged(events: seq<Event>, e: Event)
    requires e.Log? && Run(events).logging
    ensures var held := Run(events + [e]).records.entries;
            && held != []
            && held[|held| - 1].level == e.level && held[|held| - 1].message == e.message
            && held[|held| - 1].data == e.data
  {
    assert (events + [e])[..|events|] == events;
    OnlineEqualsOffline(events);
    OnlineEqualsOffline(events + [e]);
    RetainedKeepsNewest(RunLength(Accepted(events + [e])), Run(events + [e]).records.entries);
  }

  // ---- The offline account ----

  predicate LoggingAfter(events: seq<Event>) {
    if events == [] then false
    else
      match events[|events| - 1]
      case Log(_, _, _, _) => LoggingAfter(events[..|events| - 1])
      case Start => true
      case SetLogging(on) => on
  }

  /** The records accepted since the last start of an operation, oldest first. */
  function Accepted(events: seq<Event>): seq<LogRecord> {
    if events == [] then []
    else
      var before := events[..|events| - 1];
      match events[|events| - 1]
      case Log(_, _, _, _) =>
        if LoggingAfter(before) then Accepted(before) + [RecordOf(events[|events| - 1])] else Accepted(before)
      case Start => []
      case SetLogging(_) => Accepted(before)
  }

  /** The run-length encoding of a history: each run is its first record, with a count. */
  function RunLength(history: seq<LogRecord>): seq<LogRecord> {
    if history == [] then []
    else
      var runs := RunLength(history[..|history| - 1]);
      var record := history[|history| - 1];
      if RepeatsLast(runs, record) then CountRepeat(runs) else runs + [record]
  }

  /** How many entries the operations before the current one inserted. */
  function InsertedBefore(events: seq<Event>): nat {
    if events == [] then 0
    else
      var before := events[..|events| - 1];
      InsertedBefore(before) + if events[|events| - 1].Start? then |RunLength(Accepted(before))| else 0
  }

  /** Whether the runs from `k` on may be kept: they fit the bound, or only the newest is left. */
  ghost predicate Keepable(runs: seq<LogRecord>, k: nat)
    requires k <= |runs|
  {
    TotalBytes(runs[k..]) <= MAX_RECORDED_BYTES || k + 1 == |runs|
  }

  /** `kept` is the longest suffix of `runs` that may be kept. */
  ghost predicate Retained(runs: seq<LogRecord>, kept: seq<LogRecord>) {
    && |kept| <= |runs|
    && kept == runs[|runs| - |kept|..]
    && Keepable(runs, |runs| - |kept|)
    && forall k: nat | k < |runs| - |kept| :: !Keepable(runs, k)
  }

  lemma RetainedIsUnique(runs: seq<LogRecord>, a: seq<LogRecord>, b: seq<LogRecord>)
    requires Retained(runs, a) && Retained(runs, b)
    ensures a == b
  {
  }

  function TotalCount(runs: seq<LogRecord>): nat {
    if runs == [] then 0 else TotalCount(runs[..|runs| - 1]) + runs[|runs| - 1].count
  }

  lemma {:induction false} TotalCountAppends(front: seq<LogRecord>, back: seq<LogRecord>)
    ensures TotalCount(front + back) == TotalCount(front) + TotalCount(back)
  {
    if back == [] {
      assert front + back == front;
    } else {
      assert (front + back)[..|front + back| - 1] == front + back[..|back| - 1];
      TotalCountAppends(front, back[..|back| - 1]);
    }
  }

  function One(record: LogRecord): LogRecord {
    record.(count := 1)
  }

  function Copies(record: LogRecord, n: nat): (copies: seq<LogRecord>)
    ensures |copies| == n
  {
    if n == 0 then [] else Copies(record, n - 1) + [record]
  }

  /** The records a list of runs stands for, each written with the text of its run. */
  function Expand(runs: seq<LogRecord>): seq<LogRecord> {
    if runs == [] then []
    else
      var last := runs[|runs| - 1];
      Expand(runs[..|runs| - 1]) + Copies(One(last), last.count)
  }

  // ---- Properties of the encoding ----

  /** Decoding gives the history back, record by record, up to the times of repeats. */
  lemma {:induction false} RunLengthDecodes(history: seq<LogRecord>)
    requires forall r | r in history :: r.count == 1
    ensures var decoded := Expand(RunLength(history));
            && |decoded| == |history|
            && forall i | 0 <= i < |history| :: decoded[i].(time := history[i].time) == history[i]
  {
    if history != [] {
      var before, record := history[..|history| - 1], history[|history| - 1];
      assert history == before + [record] && record.count == 1;
      RunLengthDecodes(before);
      DecodesOneMore(RunLength(before), before, record);
    }
  }

  lemma DecodesOneMore(runs: seq<LogRecord>, before: seq<LogRecord>, record: LogRecord)
    requires record.count == 1 && |Expand(runs)| == |before|
    requires forall i | 0 <= i < |before| :: Expand(runs)[i].(time := before[i].time) == before[i]
    ensures var decoded := Expand(if RepeatsLast(runs, record) then CountRepeat(runs) else runs + [record]);
            && |decoded| == |before| + 1
            && forall i | 0 <= i < |before| + 1 ::
                 decoded[i].(time := (before + [record])[i].time) == (before + [record])[i]
  {
    hide Expand, Copies, CountRepeat;
    if RepeatsLast(runs, record) {
      ExpandRepeat(runs);
    } else {
      ExpandAppends(runs, record);
      OneCopy(One(record));
    }
  }

  lemma OneCopy(record: LogRecord)
    ensures Copies(record, 1) == [record]
  {
    assert Copies(record, 1) == Copies(record, 0) + [record];
  }

  lemma ExpandAppends(runs: seq<LogRecord>, record: LogRecord)
    ensures Expand(runs + [record]) == Expand(runs) + Copies(One(record), record.count)
  {
    assert (runs + [record])[..|runs + [record]| - 1] == runs;
  }

  lemma ExpandRepeat(runs: seq<LogRecord>)
    requires runs != []
    ensures Expand(CountRepeat(runs)) == Expand(runs) + [One(runs[|runs| - 1])]
  {
    var front, last := runs[..|runs| - 1], runs[|runs| - 1];
    var counted := last.(count := last.count + 1);
    CountRepeatSplits(runs);
    OneMoreCopy(front, last, counted);
  }

  lemma OneMoreCopy(front: seq<LogRecord>, last: LogRecord, counted: LogRecord)
    requires One(last) == One(counted) && counted.count == last.count + 1
    ensures Expand(front + [counted]) == Expand(front + [last]) + [One(last)]
  {
    ExpandAppends(front, last);
    ExpandAppends(front, counted);
    var copies := Copies(One(last), last.count);
    assert Expand(front) + (copies + [One(last)]) == Expand(front) + copies + [One(last)];
  }

  /** No record has the level, the message and the data of the one before. */
  ghost predicate NeighboursDiffer(runs: seq<LogRecord>) {
    forall i, j | 0 <= i < j < |runs| && j == i + 1 ::
      runs[i].level != runs[j].level || runs[i].message != runs[j].message || runs[i].data != runs[j].data
  }

  /** A shorter encoding does not exist. */
  lemma {:induction false} RunLengthIsMaximal(history: seq<LogRecord>)
    ensures NeighboursDiffer(RunLength(history))
  {
    if history != [] {
      RunLengthIsMaximal(history[..|history| - 1]);
    }
  }

  lemma {:induction false} RunLengthCounts(history: seq<LogRecord>)
    requires forall r | r in history :: r.count == 1
    ensures TotalCount(RunLength(history)) == |history|
  {
    if history != [] {
      var before := history[..|history| - 1];
      RunLengthCounts(before);
      var runs := RunLength(before);
      if RepeatsLast(runs, history[|history| - 1]) {
        assert CountRepeat(runs)[..|runs| - 1] == runs[..|runs| - 1];
      } else {
        assert (runs + [history[|history| - 1]])[..|runs|] == runs;
      }
    }
  }

  lemma {:induction false} AcceptedAreNew(events: seq<Event>)
    ensures forall r | r in Accepted(events) :: r.count == 1
  {
    if events != [] {
      AcceptedAreNew(events[..|events| - 1]);
    }
  }

  // ---- Online equals offline ----

  /** Evicting from the front stops at the longest suffix that may be kept. */
  lemma {:induction false} EvictRetains(runs: seq<LogRecord>, r: Records)
    requires r.Counted() && r.entries != [] && |r.entries| <= |runs|
    requires r.entries == runs[|runs| - |r.entries|..]
    requires forall k: nat | k < |runs| - |r.entries| :: !Keepable(runs, k)
    ensures Retained(runs, Evict(r).entries)
    decreases |r.entries|
  {
    if r.bytes > MAX_RECORDED_BYTES && |r.entries| > 1 {
      EvictRetains(runs, Records(r.entries[1..], r.bytes - r.entries[0].Size(), r.inserted));
    }
  }

  lemma RetainedAfterRepeat(runs: seq<LogRecord>, kept: seq<LogRecord>)
    requires runs != [] && kept != [] && Retained(runs, kept)
    ensures Retained(CountRepeat(runs), CountRepeat(kept))
  {
    var cut := |runs| - |kept|;
    assert CountRepeat(kept) == CountRepeat(runs)[cut..];
    forall k: nat | k <= cut
      ensures Keepable(CountRepeat(runs), k) == Keepable(runs, k)
    {
      assert CountRepeat(runs)[k..] == CountRepeat(runs[k..]);
      CountRepeatKeepsBytes(runs[k..]);
    }
  }

  lemma RetainedAfterNewRun(runs: seq<LogRecord>, r: Records, record: LogRecord)
    requires r.Counted() && Retained(runs, r.entries)
    requires !RepeatsLast(r.entries, record)
    ensures Retained(runs + [record], Push(r, record).entries)
  {
    TotalBytesAppends(r.entries, [record]);
    var cut := |runs| - |r.entries|;
    forall k: nat | k < cut
      ensures !Keepable(runs + [record], k)
    {
      assert !Keepable(runs, k);
      assert (runs + [record])[k..] == runs[k..] + [record];
      TotalBytesAppends(runs[k..], [record]);
    }
    EvictRetains(runs + [record], Records(r.entries + [record], r.bytes + record.Size(), r.inserted + 1));
  }

  /** The newest run is always held. */
  lemma RetainedKeepsNewest(runs: seq<LogRecord>, kept: seq<LogRecord>)
    requires runs != [] && Retained(runs, kept)
    ensures kept != [] && kept[|kept| - 1] == runs[|runs| - 1]
  {
    if kept == [] {
      assert Keepable(runs, |runs| - 1);
    }
  }

  lemma PushRetains(runs: seq<LogRecord>, r: Records, record: LogRecord)
    requires r.Counted() && Retained(runs, r.entries)
    ensures RepeatsLast(r.entries, record) == RepeatsLast(runs, record)
    ensures Retained(if RepeatsLast(runs, record) then CountRepeat(runs) else runs + [record], Push(r, record).entries)
    ensures Push(r, record).inserted == r.inserted + if RepeatsLast(runs, record) then 0 else 1
  {
    if runs != [] {
      RetainedKeepsNewest(runs, r.entries);
    }
    if RepeatsLast(runs, record) {
      RetainedAfterRepeat(runs, r.entries);
    } else {
      TotalBytesAppends(r.entries, [record]);
      RetainedAfterNewRun(runs, r, record);
    }
  }

  /**
   After any events, what is held is exactly the longest suffix of the run-length encoding of the
   history that fits the bound (or the newest run alone), and absolute indices number the runs of
   the history.
   */
  lemma {:induction false} OnlineEqualsOffline(events: seq<Event>)
    ensures Run(events).logging == LoggingAfter(events)
    ensures Retained(RunLength(Accepted(events)), Run(events).records.entries)
    ensures Run(events).records.inserted == InsertedBefore(events) + |RunLength(Accepted(events))|
  {
    if events != [] {
      var before := events[..|events| - 1];
      OnlineEqualsOffline(before);
      var e := events[|events| - 1];
      var r := Run(before).records;
      var runs := RunLength(Accepted(before));
      if e.Log? && LoggingAfter(before) {
        assert Accepted(events)[..|Accepted(events)| - 1] == Accepted(before);
        PushRetains(runs, r, RecordOf(e));
      }
    }
  }

  /** Every accepted record is counted, either by an entry still held or by an evicted one. */
  lemma HeldAndEvictedAddUp(events: seq<Event>)
    ensures var held, runs := Run(events).records.entries, RunLength(Accepted(events));
            && |held| <= |runs|
            && TotalCount(held) + TotalCount(runs[..|runs| - |held|]) == |Accepted(events)|
  {
    OnlineEqualsOffline(events);
    AcceptedAreNew(events);
    var held, runs := Run(events).records.entries, RunLength(Accepted(events));
    var cut := |runs| - |held|;
    RunLengthCounts(Accepted(events));
    assert runs == runs[..cut] + runs[cut..];
    TotalCountAppends(runs[..cut], runs[cut..]);
  }

  /** The bound holds or a single entry is left, the counter is exact and neighbours are distinct. */
  lemma BufferIsBounded(events: seq<Event>)
    ensures var r := Run(events).records;
            && r.bytes == TotalBytes(r.entries)
            && (r.bytes <= MAX_RECORDED_BYTES || |r.entries| == 1)
            && NeighboursDiffer(r.entries)
  {
    OnlineEqualsOffline(events);
    RunLengthIsMaximal(Accepted(events));
    var r, runs := Run(events).records, RunLength(Accepted(events));
    var cut := |runs| - |r.entries|;
    assert Keepable(runs, cut);
    assert r.entries == runs[cut..];
  }

  // ---- Absolute indices ----

  /** Absolute index `i` is held by `r`. */
  predicate Holds(r: Records, i: nat) {
    |r.entries| <= r.inserted && r.FirstIndex() <= i < r.inserted
  }

  function At(r: Records, i: nat): LogRecord
    requires Holds(r, i)
  {
    r.entries[i - r.FirstIndex()]
  }

  lemma {:induction false} EvictKeepsIndices(r: Records)
    requires r.Counted()
    ensures r.FirstIndex() <= Evict(r).FirstIndex()
    ensures forall i: nat | Holds(Evict(r), i) :: Holds(r, i) && At(Evict(r), i) == At(r, i)
    decreases |r.entries|
  {
    if r.bytes > MAX_RECORDED_BYTES && |r.entries| > 1 {
      EvictKeepsIndices(Records(r.entries[1..], r.bytes - r.entries[0].Size(), r.inserted));
    }
  }

  /** One event never moves the first index back, and an index held before and after names the same
      record, counted at least as often. */
  lemma StepKeepsIndices(d: Drain, e: Event)
    requires d.records.Counted()
    ensures d.records.FirstIndex() <= Step(d, e).records.FirstIndex()
    ensures d.records.inserted <= Step(d, e).records.inserted
    ensures forall i: nat | Holds(d.records, i) && Holds(Step(d, e).records, i) ::
              && At(d.records, i).count <= At(Step(d, e).records, i).count
              && At(Step(d, e).records, i) == At(d.records, i).(count := At(Step(d, e).records, i).count)
  {
    if e.Log? && d.logging && !RepeatsLast(d.records.entries, RecordOf(e)) {
      var r, record := d.records, RecordOf(e);
      TotalBytesAppends(r.entries, [record]);
      EvictKeepsIndices(Records(r.entries + [record], r.bytes + record.Size(), r.inserted + 1));
    }
  }

  /** The same over any number of further events: an absolute index never changes its meaning. */
  lemma {:induction false} IndicesAreStable(events: seq<Event>, more: seq<Event>)
    ensures Run(events).records.FirstIndex() <= Run(events + more).records.FirstIndex()
    ensures Run(events).records.inserted <= Run(events + more).records.inserted
    ensures forall i: nat | Holds(Run(events).records, i) && Holds(Run(events + more).records, i) ::
              At(Run(events + more).records, i) ==
              At(Run(events).records, i).(count := At(Run(events + more).records, i).count)
  {
    if more == [] {
      assert events + more == events;
    } else {
      var front := more[..|more| - 1];
      IndicesAreStable(events, front);
      assert (events + more)[..|events + more| - 1] == events + front;
      StepKeepsIndices(Run(events + front), more[|more| - 1]);
    }
  }

  // ---- The buffer itself ----

  method MeasureRecord(record: LogRecord) returns (size: nat)
    ensures size == record.Size()
  {
    size := RECORD_HEADER_BYTES + |record.level| + |record.message| + |record.time|;
    var left := record.data;
    while left != map[]
      invariant size + DataBytes(left) == record.Size()
      decreases |left|
    {
      var key :| key in left;
      DataBytesRemoves(left, key);
      size := size + |key| + |left[key]|;
      left := left - {key};
    }
  }

  class RecordBuffer {
    var entries: seq<LogRecord>
    var bytes: nat
    var inserted: nat

    ghost function View(): Records
      reads this
    {
      Records(entries, bytes, inserted)
    }

    constructor ()
      ensures View() == NEW_DRAIN.records
    {
      entries, bytes, inserted := [], 0, 0;
    }

    method ClearEntries()
      modifies this
      ensures View() == Clear(old(View()))
    {
      entries := [];
      bytes := 0;
    }

    method PushRecord(record: LogRecord)
      requires View().Counted()
      modifies this
      ensures View() == Push(old(View()), record)
    {
      if |entries| > 0 && entries[|entries| - 1].Repeats(record) {
        entries := CountRepeat(entries);
        return;
      }

      var size := MeasureRecord(record);
      TotalBytesAppends(entries, [record]);
      bytes := bytes + size;
      entries := entries + [record];
      inserted := inserted + 1;

      while bytes > MAX_RECORDED_BYTES && |entries| > 1
        invariant View().Counted()
        invariant Evict(View()) == Push(old(View()), record)
        decreases |entries|
      {
        var evicted := entries[0];
        var freed := MeasureRecord(evicted);
        entries := entries[1..];
        bytes := bytes - freed;
      }
    }
  }

  class MemDrain {
    const records: RecordBuffer
    var logging: bool

    ghost function View(): Drain
      reads this, records
    {
      Drain(records.View(), logging)
    }

    constructor ()
      ensures View() == NEW_DRAIN && fresh(records)
    {
      records := new RecordBuffer();
      logging := false;
    }

    method StartLogging()
      requires records.View().Counted()
      modifies this, records
      ensures View() == Step(old(View()), Start)
    {
      records.ClearEntries();
      logging := true;
    }

    method SetRecording(on: bool)
      requires records.View().Counted()
      modifies this
      ensures View() == Step(old(View()), SetLogging(on))
    {
      logging := on;
    }

    method Record(e: Event)
      requires e.Log? && records.View().Counted()
      modifies records
      ensures View() == Step(old(View()), e)
    {
      if logging {
        records.PushRecord(RecordOf(e));
      }
    }

    /** What is logged in between is kept in any scope, and the scope is as before. */
    method RecordOutOfScope(logged: seq<Event>)
      requires records.View().Counted() && forall e | e in logged :: e.Log?
      modifies this, records
      ensures logging == old(logging)
      ensures records.View() == PushAll(old(records.View()), logged)
    {
      var wasLogging := logging;
      SetRecording(true);
      for i := 0 to |logged|
        invariant logging && records.View() == PushAll(old(records.View()), logged[..i])
      {
        assert logged[..i + 1][..i] == logged[..i];
        Record(logged[i]);
      }
      assert logged[..|logged|] == logged;
      SetRecording(wasLogging);
    }
  }

  ghost function PushAll(r: Records, logged: seq<Event>): (r': Records)
    requires r.Counted() && forall e | e in logged :: e.Log?
    ensures r'.Counted()
  {
    if logged == [] then r
    else Push(PushAll(r, logged[..|logged| - 1]), RecordOf(logged[|logged| - 1]))
  }
}
