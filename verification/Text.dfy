/** The text operations of the Rust standard library the agent parses with. */
module Text {
  import opened Wrappers

  const U64_MAX: nat := 0xFFFF_FFFF_FFFF_FFFF

  /** The Unicode property White_Space. */
  predicate IsWhitespace(c: char) {
    var n := c as int;
    || 0x09 <= n <= 0x0D || n == 0x20 || n == 0x85 || n == 0xA0 || n == 0x1680
    || 0x2000 <= n <= 0x200A || n == 0x2028 || n == 0x2029 || n == 0x202F || n == 0x205F || n == 0x3000
  }

  predicate IsWord(s: string) {
    s != "" && forall c | c in s :: !IsWhitespace(c)
  }

  // ---- Words ----

  /** The longest prefix without whitespace. */
  function Word(s: string): (w: string)
    ensures |w| <= |s| && w == s[..|w|]
    ensures |w| < |s| ==> IsWhitespace(s[|w|])
  {
    if s == "" || IsWhitespace(s[0]) then "" else [s[0]] + Word(s[1..])
  }

  /** `str::split_whitespace` */
  function SplitWhitespace(s: string): seq<string>
    decreases |s|
  {
    if s == "" then []
    else if IsWhitespace(s[0]) then SplitWhitespace(s[1..])
    else [Word(s)] + SplitWhitespace(s[|Word(s)|..])
  }

  lemma {:induction false} WordOf(w: string, rest: string)
    requires forall c | c in w :: !IsWhitespace(c)
    requires rest != "" ==> IsWhitespace(rest[0])
    ensures Word(w + rest) == w
  {
    if w == "" {
      assert w + rest == rest;
    } else {
      assert (w + rest)[1..] == w[1..] + rest;
      WordOf(w[1..], rest);
    }
  }

  function Join(parts: seq<string>, separator: string): string {
    if parts == [] then ""
    else if |parts| == 1 then parts[0]
    else parts[0] + separator + Join(parts[1..], separator)
  }

  /** Splitting undoes joining words with a space. */
  lemma {:induction false} SplitJoin(words: seq<string>)
    requires forall w | w in words :: IsWord(w)
    ensures SplitWhitespace(Join(words, " ")) == words
  {
    assert words != [] ==> IsWord(words[0]);
    if |words| == 1 {
      WordOf(words[0], "");
      assert words[0] + "" == words[0];
    } else if |words| > 1 {
      var rest := " " + Join(words[1..], " ");
      assert Join(words, " ") == words[0] + rest;
      SplitFirst(words[0], Join(words[1..], " "));
      hide Join, SplitWhitespace, IsWord;
      SplitJoin(words[1..]);
    }
  }

  lemma SplitFirst(word: string, others: string)
    requires IsWord(word)
    ensures SplitWhitespace(word + (" " + others)) == [word] + SplitWhitespace(others)
  {
    var rest := " " + others;
    WordOf(word, rest);
    assert (word + rest)[|word|..] == rest && (word + rest)[0] == word[0] && word[0] in word;
    assert rest[1..] == others;
  }

  // ---- Separators ----

  /** The longest prefix without `c`. */
  function Until(s: string, c: char): (front: string)
    ensures |front| <= |s| && front == s[..|front|]
    ensures c !in front
    ensures |front| < |s| ==> s[|front|] == c
  {
    if s == "" || s[0] == c then "" else [s[0]] + Until(s[1..], c)
  }

  lemma {:induction false} UntilOf(front: string, c: char, rest: string)
    requires c !in front && (rest != "" ==> rest[0] == c)
    ensures Until(front + rest, c) == front
  {
    if front == "" {
      assert front + rest == rest;
    } else {
      assert (front + rest)[1..] == front[1..] + rest;
      UntilOf(front[1..], c, rest);
    }
  }

  /** `str::split_once` */
  function SplitOnce(s: string, c: char): (parts: Option<(string, string)>)
    ensures parts.Some? <==> c in s
    ensures parts.Some? ==> s == parts.value.0 + [c] + parts.value.1 && c !in parts.value.0
  {
    var front := Until(s, c);
    if |front| == |s| then None else Some((front, s[|front| + 1..]))
  }

  lemma SplitOnceOf(front: string, c: char, back: string)
    requires c !in front
    ensures SplitOnce(front + [c] + back, c) == Some((front, back))
  {
    UntilOf(front, c, [c] + back);
    assert front + ([c] + back) == front + [c] + back;
  }

  function StripCarriageReturn(s: string): string {
    if s != "" && s[|s| - 1] == '\r' then s[..|s| - 1] else s
  }

  /** `str::lines`: a trailing newline opens no further line. */
  function Lines(s: string): seq<string>
    decreases |s|
  {
    if s == "" then []
    else
      var line := Until(s, '\n');
      if |line| == |s| then [s] else [StripCarriageReturn(line)] + Lines(s[|line| + 1..])
  }

  function TrimStart(s: string): (t: string)
    ensures |t| <= |s|
  {
    if s != "" && IsWhitespace(s[0]) then TrimStart(s[1..]) else s
  }

  function TrimEnd(s: string): (t: string)
    ensures |t| <= |s|
  {
    if s != "" && IsWhitespace(s[|s| - 1]) then TrimEnd(s[..|s| - 1]) else s
  }

  /** `str::trim` */
  function Trim(s: string): string {
    TrimEnd(TrimStart(s))
  }

  // ---- Numbers ----

  predicate IsDigit(c: char) {
    '0' <= c <= '9'
  }

  function DigitsValue(s: string): nat
    requires forall c | c in s :: IsDigit(c)
  {
    if s == "" then 0
    else
      assert IsDigit(s[|s| - 1]);
      DigitsValue(s[..|s| - 1]) * 10 + (s[|s| - 1] as int - '0' as int)
  }

  /** `u64::from_str`: an optional plus sign, then digits, and no overflow. */
  function ParseU64(s: string): Option<nat> {
    var digits := if s != "" && s[0] == '+' then s[1..] else s;
    if digits == "" || exists c | c in digits :: !IsDigit(c) then None
    else if DigitsValue(digits) > U64_MAX then None
    else Some(DigitsValue(digits))
  }

  function Decimal(n: nat): (s: string)
    ensures s != "" && forall c | c in s :: IsDigit(c)
    ensures DigitsValue(s) == n
  {
    var digit := ['0' + (n % 10) as char];
    if n < 10 then digit else Decimal(n / 10) + digit
  }

  lemma ParseDecimal(n: nat)
    requires n <= U64_MAX
    ensures ParseU64(Decimal(n)) == Some(n)
  {
    assert Decimal(n)[0] in Decimal(n);
  }

  /** The characters of the Unicode property White_Space, one by one. */
  lemma WhitespaceIs(c: char)
    ensures IsWhitespace(c) <==>
            c as int in {0x09, 0x0A, 0x0B, 0x0C, 0x0D, 0x20, 0x85, 0xA0, 0x1680, 0x2000, 0x2001, 0x2002, 0x2003, 0x2004,
                         0x2005, 0x2006, 0x2007, 0x2008, 0x2009, 0x200A, 0x2028, 0x2029, 0x202F, 0x205F, 0x3000}
  {
  }

  /** A plus sign is allowed; what is too large, empty or holds anything but digits is refused. */
  lemma ParseAcceptsDecimalsOnly(n: nat, s: string, i: nat)
    ensures ParseU64(Decimal(n)) == ParseU64("+" + Decimal(n)) == if n <= U64_MAX then Some(n) else None
    ensures ParseU64("") == ParseU64("+") == None
    ensures i < |s| && (i > 0 || s[i] != '+') && !('0' <= s[i] <= '9') ==> ParseU64(s) == None
  {
    assert Decimal(n)[0] in Decimal(n) && ("+" + Decimal(n))[1..] == Decimal(n);
    if i < |s| && (i > 0 || s[i] != '+') && !('0' <= s[i] <= '9') {
      var digits := if s[0] == '+' then s[1..] else s;
      assert s[i] == if s[0] == '+' then digits[i - 1] else digits[i];
      assert s[i] in digits && !IsDigit(s[i]);
    }
  }
}
