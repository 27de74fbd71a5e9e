/**
 The metadata printed by firmware hooks (updatehub/src/firmware/hook.rs): lines of the form
 key=value, sorted and grouped by key.
 */
module HookMetadata {
  import opened Sorting
  import opened Text
  import opened Wrappers

  datatype Pair = Pair(key: string, value: string)

  datatype HookError = HookFailed | InvalidFormat

  type Metadata = map<string, seq<string>>

  // ---- The order on strings and pairs ----

  predicate LexLe(a: string, b: string) {
    a == "" || (b != "" && (a[0] < b[0] || (a[0] == b[0] && LexLe(a[1..], b[1..]))))
  }

  lemma {:induction false} LexTotal(a: string, b: string)
    ensures LexLe(a, b) || LexLe(b, a)
  {
    if a != "" && b != "" {
      LexTotal(a[1..], b[1..]);
    }
  }

  lemma {:induction false} LexAntisymmetric(a: string, b: string)
    requires LexLe(a, b) && LexLe(b, a)
    ensures a == b
  {
    if a != "" {
      LexAntisymmetric(a[1..], b[1..]);
      assert a == [a[0]] + a[1..] && b == [b[0]] + b[1..];
    }
  }

  lemma {:induction false} LexTransitive(a: string, b: string, c: string)
    requires LexLe(a, b) && LexLe(b, c)
    ensures LexLe(a, c)
  {
    if a != "" && a[0] == b[0] && b[0] == c[0] {
      LexTransitive(a[1..], b[1..], c[1..]);
    }
  }

  predicate PairLe(a: Pair, b: Pair) {
    if a.key == b.key then LexLe(a.value, b.value) else LexLe(a.key, b.key)
  }

  lemma PairLeIsTotalOrder()
    ensures TotalPreorder(PairLe) && Antisymmetric(PairLe)
  {
    forall a, b
      ensures PairLe(a, b) || PairLe(b, a)
      ensures PairLe(a, b) && PairLe(b, a) ==> a == b
    {
      LexTotal(a.key, b.key);
      LexTotal(a.value, b.value);
      if PairLe(a, b) && PairLe(b, a) {
        if a.key != b.key {
          LexAntisymmetric(a.key, b.key);
        } else {
          LexAntisymmetric(a.value, b.value);
        }
      }
    }
    forall a, b, c | PairLe(a, b) && PairLe(b, c)
      ensures PairLe(a, c)
    {
      PairLeTransitive(a, b, c);
    }
  }

  lemma PairLeTransitive(a: Pair, b: Pair, c: Pair)
    requires PairLe(a, b) && PairLe(b, c)
    ensures PairLe(a, c)
  {
    if a.key == b.key == c.key {
      LexTransitive(a.value, b.value, c.value);
    } else {
      LexTotal(b.key, b.key);
      LexTransitive(a.key, b.key, c.key);
      if a.key == c.key {
        LexAntisymmetric(a.key, b.key);
      }
    }
  }

  // ---- Parsing ----

  /** `splitn(2, '=')`, both parts trimmed; a line without '=' is refused. */
  function ParseLine(line: string): Option<Pair> {
    match SplitOnce(line, '=')
    case None => None
    case Some((key, value)) => Some(Pair(Trim(key), Trim(value)))
  }

  predicate AllValid(lines: seq<string>) {
    forall line | line in lines :: ParseLine(line).Some?
  }

  /** The pair of a valid line. */
  function PairOf(line: string): Pair {
    match ParseLine(line)
    case None => Pair("", "")
    case Some(pair) => pair
  }

  function Pairs(lines: seq<string>): seq<Pair> {
    Map(PairOf, lines)
  }

  function AddTo(m: Metadata, pair: Pair): Metadata {
    m[pair.key := (if pair.key in m then m[pair.key] else []) + [pair.value]]
  }

  function Group(pairs: seq<Pair>): Metadata {
    if pairs == [] then map[] else AddTo(Group(pairs[..|pairs| - 1]), pairs[|pairs| - 1])
  }

  function MetadataOfLines(lines: seq<string>): Result<Metadata, HookError> {
    if AllValid(lines) then Ok(Group(Sort(PairLe, Pairs(lines)))) else Err(InvalidFormat)
  }

  method ParsePairs(lines: seq<string>) returns (pairs: Option<seq<Pair>>)
    ensures pairs == if AllValid(lines) then Some(Pairs(lines)) else None
  {
    hide Map;
    MapNothing(PairOf);
    var values: seq<Pair> := [];
    for i := 0 to |lines|
      invariant AllValid(lines[..i]) && values == Pairs(lines[..i])
    {
      var pair := ParseLine(lines[i]);
      if pair.None? {
        assert lines[i] in lines;
        return None;
      }
      assert lines[..i + 1] == lines[..i] + [lines[i]];
      MapAppends(PairOf, lines[..i], lines[i]);
      values := values + [pair.value];
    }
    assert lines[..|lines|] == lines;
    return Some(values);
  }

  method GroupByKey(values: seq<Pair>) returns (mv: Metadata)
    ensures mv == Group(values)
  {
    mv := map[];
    for i := 0 to |values|
      invariant mv == Group(values[..i])
    {
      assert values[..i + 1][..i] == values[..i];
      mv := AddTo(mv, values[i]);
    }
    assert values[..|values|] == values;
  }

  method MetadataValueFromStr(s: string) returns (metadata: Result<Metadata, HookError>)
    ensures metadata == MetadataOfLines(Lines(s))
  {
    var values := ParsePairs(Lines(s));
    if values.None? {
      return Err(InvalidFormat);
    }
    var mv := GroupByKey(Sort(PairLe, values.value));
    return Ok(mv);
  }

  // ---- The order of lines ----

  /** The metadata does not depend on the order in which its lines are printed. */
  lemma LineOrderIsIrrelevant(a: seq<string>, b: seq<string>)
    requires multiset(a) == multiset(b)
    ensures MetadataOfLines(a) == MetadataOfLines(b)
  {
    forall line
      ensures line in a <==> line in b
    {
      assert line in multiset(a) <==> line in multiset(b);
    }
    if AllValid(a) {
      MapPermutes(PairOf, a, b);
      PairLeIsTotalOrder();
      SortSorts(PairLe, Pairs(a));
      SortSorts(PairLe, Pairs(b));
      SortedIsUnique(PairLe, Sort(PairLe, Pairs(a)), Sort(PairLe, Pairs(b)));
    }
  }

  // ---- What the map holds ----

  function ValuesUnder(pairs: seq<Pair>, key: string): seq<string> {
    if pairs == [] then []
    else
      ValuesUnder(pairs[..|pairs| - 1], key)
      + if pairs[|pairs| - 1].key == key then [pairs[|pairs| - 1].value] else []
  }

  lemma {:induction false} GroupCollects(pairs: seq<Pair>, key: string)
    ensures key in Group(pairs) <==> ValuesUnder(pairs, key) != []
    ensures key in Group(pairs) ==> Group(pairs)[key] == ValuesUnder(pairs, key)
  {
    if pairs != [] {
      GroupCollects(pairs[..|pairs| - 1], key);
    }
  }

  lemma {:induction false} ValuesUnderSorted(pairs: seq<Pair>, key: string)
    requires Sorted(PairLe, pairs)
    ensures Sorted(LexLe, ValuesUnder(pairs, key))
    ensures forall v | v in ValuesUnder(pairs, key) :: Pair(key, v) in pairs
  {
    if pairs != [] {
      var before, last := pairs[..|pairs| - 1], pairs[|pairs| - 1];
      ValuesUnderSorted(before, key);
      if last.key == key {
        forall v | v in ValuesUnder(before, key)
          ensures LexLe(v, last.value)
        {
          var i :| 0 <= i < |before| && before[i] == Pair(key, v);
          assert PairLe(pairs[i], pairs[|pairs| - 1]);
        }
      }
    }
  }

  lemma {:induction false} ValuesUnderCount(pairs: seq<Pair>, key: string, value: string)
    ensures multiset(ValuesUnder(pairs, key))[value] == multiset(pairs)[Pair(key, value)]
  {
    if pairs != [] {
      ValuesUnderCount(pairs[..|pairs| - 1], key, value);
      assert pairs == pairs[..|pairs| - 1] + [pairs[|pairs| - 1]];
    }
  }

  /** Each list is sorted and holds the value of every line with its key, as often as it was printed. */
  lemma MetadataHoldsEveryLine(lines: seq<string>, key: string)
    requires AllValid(lines)
    ensures var m := MetadataOfLines(lines).value;
            && (key in m <==> exists value :: Pair(key, value) in Pairs(lines))
            && (key in m ==> Sorted(LexLe, m[key]))
            && (key in m ==> forall value :: multiset(m[key])[value] == multiset(Pairs(lines))[Pair(key, value)])
  {
    var sorted := Sort(PairLe, Pairs(lines));
    var m := MetadataOfLines(lines).value;
    PairLeIsTotalOrder();
    SortSorts(PairLe, Pairs(lines));
    GroupCollects(sorted, key);
    ValuesUnderSorted(sorted, key);
    forall value
      ensures multiset(ValuesUnder(sorted, key))[value] == multiset(Pairs(lines))[Pair(key, value)]
    {
      ValuesUnderCount(sorted, key, value);
    }
    if key in m {
      var value := ValuesUnder(sorted, key)[0];
      assert value in multiset(ValuesUnder(sorted, key));
      assert Pair(key, value) in multiset(Pairs(lines));
    }
    if value :| Pair(key, value) in Pairs(lines) {
      assert value in multiset(ValuesUnder(sorted, key));
    }
  }

  // ---- A directory of hooks ----

  /** Hooks run one after the other, and their trimmed outputs are joined by newlines. */
  function MetadataOfOutputs(outputs: seq<string>): Result<Metadata, HookError> {
    MetadataOfLines(Lines(Join(outputs, "\n")))
  }

  predicate Trimmed(s: string) {
    s != "" ==> !IsWhitespace(s[0]) && !IsWhitespace(s[|s| - 1])
  }

  /** The lines of all outputs; an empty output has none. */
  function AllLines(outputs: seq<string>): seq<string> {
    if outputs == [] then [] else Lines(outputs[0]) + AllLines(outputs[1..])
  }

  lemma AllLinesOfFirst(first: string, rest: seq<string>)
    ensures AllLines([first] + rest) == Lines(first) + AllLines(rest)
  {
    assert ([first] + rest)[1..] == rest;
  }

  /** Some output other than the last one is empty, which leaves a blank line. */
  ghost predicate BlankLine(outputs: seq<string>) {
    exists i :: 0 <= i < |outputs| - 1 && outputs[i] == ""
  }

  function OnTop(front: string, back: string): string {
    front + "\n" + back
  }

  lemma OnTopIsAssociative(a: string, b: string, c: string)
    ensures OnTop(OnTop(a, b), c) == OnTop(a, OnTop(b, c))
  {
  }

  lemma LinesOfFirst(line: string, rest: string)
    requires '\n' !in line
    ensures Lines(OnTop(line, rest)) == [StripCarriageReturn(line)] + Lines(rest)
  {
    UntilOf(line, '\n', "\n" + rest);
    assert line + ("\n" + rest) == OnTop(line, rest);
    assert OnTop(line, rest)[|line| + 1..] == rest;
  }

  predicate EndsInWord(s: string) {
    s != "" && !IsWhitespace(s[|s| - 1])
  }

  lemma AfterFirstLine(front: string) returns (line: string, rest: string)
    requires '\n' in front && EndsInWord(front)
    ensures '\n' !in line && front == OnTop(line, rest) && EndsInWord(rest) && |rest| < |front|
  {
    line := Until(front, '\n');
    rest := front[|line| + 1..];
  }

  lemma LinesOfOne(line: string)
    requires '\n' !in line && EndsInWord(line)
    ensures Lines(line) == [StripCarriageReturn(line)]
  {
  }

  /** A text before a newline keeps its lines. */
  lemma {:induction false} LinesOfJoined(front: string, back: string)
    requires EndsInWord(front)
    ensures Lines(OnTop(front, back)) == Lines(front) + Lines(back)
    decreases |front|
  {
    hide Lines, OnTop, StripCarriageReturn, EndsInWord;
    if '\n' !in front {
      LinesOfFirst(front, back);
      LinesOfOne(front);
    } else {
      var line, rest := AfterFirstLine(front);
      LinesOfFirst(line, rest);
      LinesOfJoined(rest, back);
      LinesOfFirst(line, OnTop(rest, back));
      OnTopIsAssociative(line, rest, back);
    }
  }

  lemma LinesOfBlank(back: string)
    ensures Lines(OnTop("", back)) == [""] + Lines(back)
  {
    LinesOfFirst("", back);
  }

  lemma BlankLineAfter(first: string, rest: seq<string>)
    requires first != "" && rest != []
    ensures BlankLine([first] + rest) <==> BlankLine(rest)
  {
    var outputs := [first] + rest;
    if BlankLine(rest) {
      var i :| 0 <= i < |rest| - 1 && rest[i] == "";
      assert outputs[i + 1] == "";
    }
    if BlankLine(outputs) {
      var i :| 0 <= i < |outputs| - 1 && outputs[i] == "";
      assert rest[i - 1] == "";
    }
  }

  lemma OneOutput(o: string)
    ensures Join([o], "\n") == o && AllLines([o]) == Lines(o) && !BlankLine([o])
  {
    AllLinesOfFirst(o, []);
    assert [o] + [] == [o];
  }

  lemma LinesOfFirstOutput(first: string, rest: seq<string>)
    requires Trimmed(first) && rest != []
    ensures Join([first] + rest, "\n") == OnTop(first, Join(rest, "\n"))
    ensures Lines(OnTop(first, Join(rest, "\n"))) == (if first == "" then [""] else Lines(first)) + Lines(Join(rest, "\n"))
  {
    assert ([first] + rest)[1..] == rest;
    if first == "" {
      LinesOfBlank(Join(rest, "\n"));
    } else {
      LinesOfJoined(first, Join(rest, "\n"));
    }
  }

  lemma {:induction false} LinesOfOutputs(outputs: seq<string>)
    requires forall o | o in outputs :: Trimmed(o)
    ensures !BlankLine(outputs) ==> Lines(Join(outputs, "\n")) == AllLines(outputs)
    ensures BlankLine(outputs) ==> "" in Lines(Join(outputs, "\n"))
  {
    if |outputs| == 1 {
      OneOutput(outputs[0]);
      assert outputs == [outputs[0]];
    } else if |outputs| > 1 {
      hide Lines, AllLines, Join, Trimmed, OnTop;
      var first, rest := outputs[0], outputs[1..];
      assert outputs == [first] + rest;
      assert first in outputs && forall o | o in rest :: o in outputs;
      LinesOfOutputs(rest);
      LinesOfFirstOutput(first, rest);
      AllLinesOfFirst(first, rest);
      if first == "" {
        assert BlankLine(outputs);
      } else {
        BlankLineAfter(first, rest);
      }
    }
  }

  /** What a directory of hooks gives: its lines, unless a blank line spoils them. */
  lemma OutputsGive(outputs: seq<string>)
    requires forall o | o in outputs :: Trimmed(o)
    ensures MetadataOfOutputs(outputs) ==
            if BlankLine(outputs) then Err(InvalidFormat) else MetadataOfLines(AllLines(outputs))
  {
    LinesOfOutputs(outputs);
    if BlankLine(outputs) {
      assert ParseLine("") == None;
    }
  }

  lemma {:induction false} AllLinesRemove(outputs: seq<string>, i: nat)
    requires i < |outputs|
    ensures multiset(AllLines(outputs)) == multiset(Lines(outputs[i])) + multiset(AllLines(Without(outputs, i)))
  {
    hide AllLines, Lines, Without;
    var first, rest := outputs[0], outputs[1..];
    AllLinesOfFirst(first, rest);
    WithoutSplits(outputs, i);
    if i > 0 {
      AllLinesRemove(rest, i - 1);
      AllLinesOfFirst(first, Without(rest, i - 1));
    }
  }

  lemma {:induction false} AllLinesPermute(a: seq<string>, b: seq<string>)
    requires multiset(a) == multiset(b)
    ensures multiset(AllLines(a)) == multiset(AllLines(b))
    decreases |a|
  {
    SameMultisetSameLength(a, b);
    if a != [] {
      hide AllLines, Lines, Without;
      assert a[0] in multiset(b);
      var i :| 0 <= i < |b| && b[i] == a[0];
      AllLinesRemove(a, 0);
      AllLinesRemove(b, i);
      WithoutOne(a, 0);
      WithoutOne(b, i);
      AllLinesPermute(Without(a, 0), Without(b, i));
    }
  }

  /** Several hooks, exactly one of which prints nothing, while the others print only valid lines. */
  ghost predicate OneSilentHook(outputs: seq<string>) {
    |outputs| > 1 && multiset(outputs)[""] == 1 && AllValid(AllLines(outputs))
  }

  /** Whether an empty output leaves a blank line depends on its place only if there is just one. */
  lemma {:induction false} BlankLineUnlessLast(outputs: seq<string>)
    ensures multiset(outputs)[""] == 0 ==> !BlankLine(outputs)
    ensures multiset(outputs)[""] >= 2 ==> BlankLine(outputs)
    ensures multiset(outputs)[""] == 1 ==> (BlankLine(outputs) <==> outputs[|outputs| - 1] != "")
  {
    if outputs != [] {
      var before, last := outputs[..|outputs| - 1], outputs[|outputs| - 1];
      assert outputs == before + [last];
      assert BlankLine(outputs) <==> "" in before by {
        if BlankLine(outputs) {
          var i :| 0 <= i < |outputs| - 1 && outputs[i] == "";
          assert before[i] == "";
        }
        if "" in before {
          var i :| 0 <= i < |before| && before[i] == "";
          assert outputs[i] == "";
        }
      }
      assert "" in before <==> "" in multiset(before);
    }
  }

  /** The directory's metadata is the same for every order of its hooks, except with one silent hook. */
  lemma HookOrderMattersExactlyWhen(outputs: seq<string>)
    requires forall o | o in outputs :: Trimmed(o)
    ensures (forall other: seq<string> | multiset(other) == multiset(outputs) ::
               MetadataOfOutputs(other) == MetadataOfOutputs(outputs))
            <==> !OneSilentHook(outputs)
  {
    if OneSilentHook(outputs) {
      var other := SilentHookMatters(outputs);
    } else {
      forall other: seq<string> | multiset(other) == multiset(outputs)
        ensures MetadataOfOutputs(other) == MetadataOfOutputs(outputs)
      {
        OrderIsIrrelevant(outputs, other);
      }
    }
  }

  lemma TrimmedPermute(a: seq<string>, b: seq<string>)
    requires multiset(a) == multiset(b) && forall o | o in a :: Trimmed(o)
    ensures forall o | o in b :: Trimmed(o)
  {
    forall o | o in b
      ensures Trimmed(o)
    {
      assert o in multiset(a);
    }
  }

  lemma OrderIsIrrelevant(a: seq<string>, b: seq<string>)
    requires multiset(a) == multiset(b) && forall o | o in a :: Trimmed(o)
    requires !OneSilentHook(a)
    ensures MetadataOfOutputs(a) == MetadataOfOutputs(b)
  {
    TrimmedPermute(a, b);
    SameMultisetSameLength(a, b);
    OutputsGive(a);
    OutputsGive(b);
    BlankLineUnlessLast(a);
    BlankLineUnlessLast(b);
    AllLinesPermute(a, b);
    LineOrderIsIrrelevant(AllLines(a), AllLines(b));
  }

  lemma SilentHookMatters(outputs: seq<string>) returns (other: seq<string>)
    requires OneSilentHook(outputs) && forall o | o in outputs :: Trimmed(o)
    ensures multiset(other) == multiset(outputs) && MetadataOfOutputs(other) != MetadataOfOutputs(outputs)
  {
    var rest := WithoutSilent(outputs);
    SilentFirst(outputs, rest);
    SilentLast(outputs, rest);
    other := if MetadataOfOutputs(outputs).Ok? then [""] + rest else rest + [""];
  }

  lemma WithoutSilent(outputs: seq<string>) returns (rest: seq<string>)
    requires multiset(outputs)[""] == 1
    ensures multiset(rest) == multiset(outputs) - multiset{""}
  {
    assert "" in multiset(outputs);
    var i :| 0 <= i < |outputs| && outputs[i] == "";
    WithoutOne(outputs, i);
    rest := Without(outputs, i);
  }

  lemma SilentFirst(outputs: seq<string>, rest: seq<string>)
    requires OneSilentHook(outputs) && forall o | o in outputs :: Trimmed(o)
    requires multiset(rest) == multiset(outputs) - multiset{""}
    ensures multiset([""] + rest) == multiset(outputs) && MetadataOfOutputs([""] + rest).Err?
  {
    var first := [""] + rest;
    SameMultisetSameLength(first, outputs);
    TrimmedPermute(outputs, first);
    OutputsGive(first);
    assert first[0] == "";
  }

  lemma SilentLast(outputs: seq<string>, rest: seq<string>)
    requires OneSilentHook(outputs) && forall o | o in outputs :: Trimmed(o)
    requires multiset(rest) == multiset(outputs) - multiset{""}
    ensures multiset(rest + [""]) == multiset(outputs) && MetadataOfOutputs(rest + [""]).Ok?
  {
    var last := rest + [""];
    TrimmedPermute(outputs, last);
    OutputsGive(last);
    BlankLineUnlessLast(last);
    AllLinesPermute(outputs, last);
    LineOrderIsIrrelevant(AllLines(outputs), AllLines(last));
  }

  // ---- Reading back what hooks print ----

  /** A line as a hook may print it: a key and a value, with whitespace around each. */
  datatype Printed = Printed(
    before: string, key: string, afterKey: string, beforeValue: string, value: string, after: string)
  {
    function Line(): string {
      before + key + afterKey + "=" + (beforeValue + value + after)
    }

    ghost predicate WellFormed() {
      && Blank(before) && Blank(afterKey) && Blank(beforeValue) && Blank(after)
      && Trimmed(key) && Trimmed(value) && '=' !in key
    }
  }

  predicate Blank(s: string) {
    forall c | c in s :: IsWhitespace(c)
  }

  lemma {:induction false} TrimStartOf(pad: string, rest: string)
    requires Blank(pad) && (rest != "" ==> !IsWhitespace(rest[0]))
    ensures TrimStart(pad + rest) == rest
  {
    if pad == "" {
      assert pad + rest == rest;
    } else {
      assert (pad + rest)[1..] == pad[1..] + rest && pad[0] in pad;
      TrimStartOf(pad[1..], rest);
    }
  }

  lemma {:induction false} TrimEndOf(rest: string, pad: string)
    requires Blank(pad) && (rest != "" ==> !IsWhitespace(rest[|rest| - 1]))
    ensures TrimEnd(rest + pad) == rest
  {
    if pad == "" {
      assert rest + pad == rest;
    } else {
      assert (rest + pad)[..|rest + pad| - 1] == rest + pad[..|pad| - 1] && pad[|pad| - 1] in pad;
      TrimEndOf(rest, pad[..|pad| - 1]);
    }
  }

  /** Trimming takes away the whitespace around a text and no more. */
  lemma TrimOf(before: string, s: string, after: string)
    requires Blank(before) && Blank(after) && Trimmed(s)
    ensures Trim(before + s + after) == s
  {
    if s == "" {
      assert before + s + after == (before + after) + "";
      TrimStartOf(before + after, "");
    } else {
      assert before + s + after == before + (s + after);
      TrimStartOf(before, s + after);
      TrimEndOf(s, after);
    }
  }

  lemma LineReadsBack(p: Printed)
    requires p.WellFormed()
    ensures ParseLine(p.Line()) == Some(Pair(p.key, p.value))
  {
    assert '=' !in p.before && '=' !in p.afterKey;
    SplitOnceOf(p.before + p.key + p.afterKey, '=', p.beforeValue + p.value + p.after);
    TrimOf(p.before, p.key, p.afterKey);
    TrimOf(p.beforeValue, p.value, p.after);
  }

  function LinesPrinted(printed: seq<Printed>): seq<string> {
    Map((p: Printed) => p.Line(), printed)
  }

  function ValuesPrinted(printed: seq<Printed>): seq<(string, string)> {
    Map((p: Printed) => (p.key, p.value), printed)
  }

  lemma {:induction false} PairsReadBack(printed: seq<Printed>, key: string, value: string)
    requires forall p | p in printed :: p.WellFormed()
    ensures AllValid(LinesPrinted(printed))
    ensures multiset(Pairs(LinesPrinted(printed)))[Pair(key, value)] == multiset(ValuesPrinted(printed))[(key, value)]
  {
    if printed != [] {
      var first, rest := printed[0], printed[1..];
      assert printed == [first] + rest;
      LineReadsBack(first);
      PairsReadBack(rest, key, value);
      assert LinesPrinted(printed) == [first.Line()] + LinesPrinted(rest);
      MapOfFirst(PairOf, first.Line(), LinesPrinted(rest));
      assert ValuesPrinted(printed) == [(first.key, first.value)] + ValuesPrinted(rest);
    }
  }

  /** Whatever lines hooks print, and however they are padded: each value is found under its key, as often as it
      was printed there, in sorted order; and there is nothing else. */
  lemma MetadataReadsBack(printed: seq<Printed>, key: string)
    requires forall p | p in printed :: p.WellFormed()
    ensures MetadataOfLines(LinesPrinted(printed)).Ok?
    ensures var m := MetadataOfLines(LinesPrinted(printed)).value;
            && (key in m <==> exists value :: (key, value) in ValuesPrinted(printed))
            && (key in m ==> Sorted(LexLe, m[key]))
            && (key in m ==> forall value :: multiset(m[key])[value] == multiset(ValuesPrinted(printed))[(key, value)])
  {
    var lines := LinesPrinted(printed);
    PairsReadBack(printed, key, "");
    MetadataHoldsEveryLine(lines, key);
    forall value
      ensures multiset(Pairs(lines))[Pair(key, value)] == multiset(ValuesPrinted(printed))[(key, value)]
      ensures (key, value) in ValuesPrinted(printed) <==> Pair(key, value) in Pairs(lines)
    {
      PairsReadBack(printed, key, value);
      assert (key, value) in ValuesPrinted(printed) <==> (key, value) in multiset(ValuesPrinted(printed));
      assert Pair(key, value) in Pairs(lines) <==> Pair(key, value) in multiset(Pairs(lines));
    }
  }

  /** Lines are refused exactly if one of them has no separator. */
  lemma LinesAreRefusedExactlyWhen(lines: seq<string>)
    ensures MetadataOfLines(lines).Err? <==> exists line :: line in lines && '=' !in line
  {
  }

  function Unlines(lines: seq<string>): string {
    if lines == [] then "" else OnTop(lines[0], Unlines(lines[1..]))
  }

  /** Splitting a text at its newlines gives back its lines, also if they end in a carriage return. */
  lemma {:induction false} LinesReadBack(lines: seq<string>, carriage: bool)
    requires forall line | line in lines :: '\n' !in line && '\r' !in line
    ensures Lines(Unlines(if carriage then Map((line: string) => line + "\r", lines) else lines)) == lines
  {
    if lines != [] {
      var rest := if carriage then Map((line: string) => line + "\r", lines[1..]) else lines[1..];
      assert lines == [lines[0]] + lines[1..] && lines[0] in lines;
      LinesReadBack(lines[1..], carriage);
      LinesOfFirst(if carriage then lines[0] + "\r" else lines[0], Unlines(rest));
      ReturnIsStripped(lines[0]);
    }
  }

  lemma ReturnIsStripped(line: string)
    requires '\r' !in line
    ensures StripCarriageReturn(line) == line == StripCarriageReturn(line + "\r")
  {
  }

  /** The first difference is at `i`, and decides for `a`. */
  predicate DiffersAt(a: string, b: string, i: nat) {
    i < |a| && i < |b| && a[..i] == b[..i] && a[i] < b[i]
  }

  lemma DifferenceMovesOn(a: string, b: string, i: nat)
    requires a != "" && b != "" && a[0] == b[0]
    ensures DiffersAt(a[1..], b[1..], i) <==> DiffersAt(a, b, i + 1)
  {
    if i < |a| - 1 && i < |b| - 1 {
      assert a[..i + 1] == [a[0]] + a[1..][..i] && b[..i + 1] == [b[0]] + b[1..][..i];
      assert a[..i + 1] == b[..i + 1] ==> a[..i + 1][1..] == b[..i + 1][1..];
    }
  }

  lemma PrefixMovesOn(a: string, b: string)
    requires a != "" && b != "" && a[0] == b[0]
    ensures a <= b <==> a[1..] <= b[1..]
  {
    assert a == [a[0]] + a[1..] && b == [b[0]] + b[1..];
  }

  /** The order of values is that of dictionaries: a prefix comes first, or the first difference decides. */
  lemma {:induction false} LexLeIsLexicographic(a: string, b: string)
    ensures LexLe(a, b) <==> a <= b || exists i: nat :: DiffersAt(a, b, i)
  {
    if a == "" || b == "" {
      assert LexLe(a, b) <==> a <= b;
    } else if a[0] == b[0] {
      LexLeIsLexicographic(a[1..], b[1..]);
      PrefixMovesOn(a, b);
      hide DiffersAt;
      if i: nat :| DiffersAt(a[1..], b[1..], i) {
        DifferenceMovesOn(a, b, i);
      }
      if i: nat :| DiffersAt(a, b, i) {
        NotAtTheStart(a, b, i);
        DifferenceMovesOn(a, b, i - 1);
      }
    } else {
      assert a[0] < b[0] ==> DiffersAt(a, b, 0);
      forall i: nat | DiffersAt(a, b, i)
        ensures a[0] < b[0]
      {
        assert i > 0 ==> a[..i][0] == b[..i][0];
      }
    }
  }

  lemma NotAtTheStart(a: string, b: string, i: nat)
    requires DiffersAt(a, b, i) && a[0] == b[0]
    ensures i > 0
  {
  }

  // ---- Running the hooks ----

  /** The trimmed output of a hook that ran. */
  function OutputOf(run: Option<string>): string {
    if run.Some? then Trim(run.value) else ""
  }

  predicate AllRan(runs: seq<Option<string>>) {
    forall run | run in runs :: run.Some?
  }

  function MetadataOfRuns(runs: seq<Option<string>>): Result<Metadata, HookError> {
    if AllRan(runs) then MetadataOfOutputs(Map(OutputOf, runs)) else Err(HookFailed)
  }

  /** Hooks run in the order the directory lists them, up to one that fails. */
  method RunHooksFromDir(runs: seq<Option<string>>) returns (metadata: Result<Metadata, HookError>)
    ensures metadata == MetadataOfRuns(runs)
  {
    hide Map;
    MapNothing(OutputOf);
    var outputs: seq<string> := [];
    for i := 0 to |runs|
      invariant AllRan(runs[..i]) && outputs == Map(OutputOf, runs[..i])
    {
      if runs[i].None? {
        assert runs[i] in runs;
        return Err(HookFailed);
      }
      assert runs[..i + 1] == runs[..i] + [runs[i]];
      MapAppends(OutputOf, runs[..i], runs[i]);
      outputs := outputs + [Trim(runs[i].value)];
    }
    assert runs[..|runs|] == runs;
    metadata := MetadataValueFromStr(Join(outputs, "\n"));
  }

  lemma {:induction false} TrimStartTrims(s: string)
    ensures TrimStart(s) != "" ==> !IsWhitespace(TrimStart(s)[0])
  {
    if s != "" && IsWhitespace(s[0]) {
      TrimStartTrims(s[1..]);
    }
  }

  lemma {:induction false} TrimEndTrims(s: string)
    ensures TrimEnd(s) != "" ==> !IsWhitespace(TrimEnd(s)[|TrimEnd(s)| - 1]) && s != "" && TrimEnd(s)[0] == s[0]
  {
    if s != "" && IsWhitespace(s[|s| - 1]) {
      TrimEndTrims(s[..|s| - 1]);
    }
  }

  lemma OutputsAreTrimmed(runs: seq<Option<string>>)
    ensures forall o | o in Map(OutputOf, runs) :: Trimmed(o)
  {
    forall o | o in Map(OutputOf, runs)
      ensures Trimmed(o)
    {
      var run := MapMember(OutputOf, runs, o);
      if run.Some? {
        TrimStartTrims(run.value);
        TrimEndTrims(TrimStart(run.value));
      }
    }
  }

  lemma AllRanPermutes(a: seq<Option<string>>, b: seq<Option<string>>)
    requires multiset(a) == multiset(b)
    ensures AllRan(a) == AllRan(b)
  {
    assert forall run :: (run in a <==> run in multiset(a)) && (run in b <==> run in multiset(b));
  }

  /** What a directory of hooks gives depends on the order of its entries exactly if every hook runs and one of
      several prints nothing while the others print only valid lines. */
  lemma DirectoryOrderMattersExactlyWhen(runs: seq<Option<string>>)
    ensures (forall other | multiset(other) == multiset(runs) :: MetadataOfRuns(other) == MetadataOfRuns(runs))
            <==> !(AllRan(runs) && OneSilentHook(Map(OutputOf, runs)))
  {
    hide Map, MetadataOfOutputs, OneSilentHook, AllRan;
    var outputs := Map(OutputOf, runs);
    OutputsAreTrimmed(runs);
    if AllRan(runs) && OneSilentHook(outputs) {
      var printed := SilentHookMatters(outputs);
      var other := MapPermutesBack(OutputOf, runs, printed);
      AllRanPermutes(runs, other);
      assert MetadataOfRuns(other) != MetadataOfRuns(runs);
    } else {
      forall other | multiset(other) == multiset(runs)
        ensures MetadataOfRuns(other) == MetadataOfRuns(runs)
      {
        AllRanPermutes(runs, other);
        if AllRan(runs) {
          MapPermutes(OutputOf, runs, other);
          OrderIsIrrelevant(outputs, Map(OutputOf, other));
        }
      }
    }
  }
}
