/**
 * The time text of the watch face: `String.format("%d:%02d", HOUR, MINUTE)` in ambient
 * mode and `String.format("%d:%02d:%02d", HOUR, MINUTE, SECOND)` in interactive mode, with
 * HOUR, MINUTE and SECOND the `Calendar` fields of the current instant in the active time
 * zone. A parser for that text is the partner the formatter is proved against.
 */
module Clock {
  import opened Wrappers

  const MillisPerSecond: int := 1000

  predicate IsDigit(c: char) {
    '0' <= c <= '9'
  }

  predicate AllDigits(s: string) {
    forall i :: 0 <= i < |s| ==> IsDigit(s[i])
  }

  function DigitChar(d: nat): char
    requires d < 10
  {
    ('0' as int + d) as char
  }

  function DigitValue(c: char): nat
    requires IsDigit(c)
  {
    c as int - '0' as int
  }

  /** Java's `%d` of a non-negative number: its decimal digits, no leading zero. */
  function Decimal(n: nat): (s: string)
    ensures |s| >= 1 && AllDigits(s)
    ensures (|s| == 1) == (n < 10)
    ensures s[0] == '0' ==> n == 0
    decreases n
  {
    if n < 10 then [DigitChar(n)] else Decimal(n / 10) + [DigitChar(n % 10)]
  }

  /** Java's `%02d` of a non-negative number: at least two digits, padded with `0`. */
  function Pad2(n: nat): (s: string)
    ensures AllDigits(s)
    ensures |s| >= 2
    ensures n < 100 ==> |s| == 2
  {
    if n < 10 then "0" + Decimal(n) else Decimal(n)
  }

  /** The three `Calendar` fields the time text is built from. */
  datatype Fields = Fields(hour: nat, minute: nat, second: nat)

  /**
   * `Calendar.HOUR` (hour of the half day), `Calendar.MINUTE` and `Calendar.SECOND` of an
   * instant, given as milliseconds since the epoch already shifted by the zone offset.
   */
  function FieldsAt(localMillis: int): (f: Fields)
    ensures f.hour < 12 && f.minute < 60 && f.second < 60
    ensures (localMillis / MillisPerSecond) % 43200 == f.hour * 3600 + f.minute * 60 + f.second
  {
    var seconds := localMillis / MillisPerSecond;
    var minutes := seconds / 60;
    var hours := minutes / 60;
    Fields(hours % 12, minutes % 60, seconds % 60)
  }

  /** The time text drawn on the face: `H:MM` when ambient, `H:MM:SS` otherwise. */
  function TimeText(ambient: bool, f: Fields): (t: string)
    ensures TimeChars(t)
    ensures |Split(t, ':')| == if ambient then 2 else 3
  {
    var h, m, s := Decimal(f.hour), Pad2(f.minute), Pad2(f.second);
    SplitJoined(h, m, s);
    TimeCharsJoin(h, m);
    TimeCharsJoin(h + ":" + m, s);
    if ambient then h + ":" + m else h + ":" + m + ":" + s
  }

  // ---------------------------------------------------------------------------------------
  // The partner: reading the numbers back out of a time text.

  /** The value of a string of decimal digits. */
  function Value(s: string): nat
    requires AllDigits(s)
    decreases |s|
  {
    if s == [] then 0 else Value(s[..|s| - 1]) * 10 + DigitValue(s[|s| - 1])
  }

  /** Splits `s` at every `sep`; the parts never contain `sep`. */
  function Split(s: string, sep: char): (parts: seq<string>)
    ensures |parts| >= 1
    decreases |s|
  {
    if s == [] then [""]
    else
      var rest := Split(s[1..], sep);
      if s[0] == sep then [""] + rest else [[s[0]] + rest[0]] + rest[1..]
  }

  function ParseNat(s: string): Option<nat> {
    if s != [] && AllDigits(s) then Some(Value(s)) else None
  }

  function ParseAll(parts: seq<string>): Option<seq<nat>>
    decreases |parts|
  {
    if parts == [] then Some([])
    else
      var head, tail := ParseNat(parts[0]), ParseAll(parts[1..]);
      if head.Some? && tail.Some? then Some([head.value] + tail.value) else None
  }

  /** The colon-separated numbers of a time text, or `None` if it is not one. */
  function ParseTimeText(s: string): Option<seq<nat>> {
    ParseAll(Split(s, ':'))
  }

  // ---------------------------------------------------------------------------------------
  // Lemmas.

  lemma {:induction false} ValueOfDecimal(n: nat)
    ensures Value(Decimal(n)) == n
    decreases n
  {
    if n >= 10 {
      var s := Decimal(n);
      assert s[..|s| - 1] == Decimal(n / 10);
      ValueOfDecimal(n / 10);
    }
  }

  /** A leading zero does not change the value. */
  lemma {:induction false} ValueLeadingZero(s: string)
    requires AllDigits(s)
    ensures AllDigits("0" + s) && Value("0" + s) == Value(s)
    decreases |s|
  {
    if s != [] {
      var t := "0" + s;
      assert t[..|t| - 1] == "0" + s[..|s| - 1];
      ValueLeadingZero(s[..|s| - 1]);
    }
  }

  lemma ValueOfPad2(n: nat)
    ensures Value(Pad2(n)) == n
  {
    ValueOfDecimal(n);
    if n < 10 {
      ValueLeadingZero(Decimal(n));
    }
  }

  /** A string without a separator is one part. */
  lemma {:induction false} SplitNoSep(a: string, sep: char)
    requires sep !in a
    ensures Split(a, sep) == [a]
    decreases |a|
  {
    if a != [] {
      SplitNoSep(a[1..], sep);
      assert [a[0]] + a[1..] == a;
    }
  }

  /** A separator after a part without one splits off exactly that part. */
  lemma {:induction false} SplitAtSep(a: string, sep: char, b: string)
    requires sep !in a
    ensures Split(a + [sep] + b, sep) == [a] + Split(b, sep)
    decreases |a|
  {
    var s := a + [sep] + b;
    if a == [] {
      assert s[1..] == b;
    } else {
      assert s[1..] == a[1..] + [sep] + b;
      SplitAtSep(a[1..], sep, b);
      assert [a[0]] + a[1..] == a;
    }
  }

  lemma ParseCons(p: string, ps: seq<string>, v: nat, vs: seq<nat>)
    requires p != [] && AllDigits(p) && Value(p) == v && ParseAll(ps) == Some(vs)
    ensures ParseAll([p] + ps) == Some([v] + vs)
  {
  }

  lemma DigitsHaveNoColon(s: string)
    requires AllDigits(s)
    ensures ':' !in s
  {
  }

  /** Digits and colons only. */
  predicate TimeChars(t: string) {
    forall i :: 0 <= i < |t| ==> IsDigit(t[i]) || t[i] == ':'
  }

  /** Joining strings of digits and colons with a colon keeps to digits and colons. */
  lemma TimeCharsJoin(a: string, b: string)
    requires TimeChars(a) && TimeChars(b)
    ensures TimeChars(a + ":" + b)
  {
  }

  /** Digit strings joined with colons split back into exactly those strings. */
  lemma SplitJoined(h: string, m: string, s: string)
    requires AllDigits(h) && AllDigits(m) && AllDigits(s)
    ensures Split(h + ":" + m, ':') == [h, m]
    ensures Split(h + ":" + m + ":" + s, ':') == [h, m, s]
  {
    DigitsHaveNoColon(h);
    DigitsHaveNoColon(m);
    DigitsHaveNoColon(s);
    SplitNoSep(m, ':');
    SplitNoSep(s, ':');
    SplitAtSep(h, ':', m);
    SplitAtSep(m, ':', s);
    assert h + ":" + m + ":" + s == h + [':'] + (m + [':'] + s);
    SplitAtSep(h, ':', m + ":" + s);
  }

  /**
   * Round trip: the numbers read back from the time text are the hour, the minute and,
   * in interactive mode only, the second.
   */
  lemma TimeTextRoundTrip(ambient: bool, f: Fields)
    ensures ParseTimeText(TimeText(ambient, f)) ==
      Some(if ambient then [f.hour, f.minute] else [f.hour, f.minute, f.second])
  {
    var h, m, s := Decimal(f.hour), Pad2(f.minute), Pad2(f.second);
    SplitJoined(h, m, s);
    ValueOfDecimal(f.hour);
    ValueOfPad2(f.minute);
    ValueOfPad2(f.second);
    ParseCons(s, [], f.second, []);
    assert [s] + [] == [s] && [f.second] + [] == [f.second];
    ParseCons(m, [s], f.minute, [f.second]);
    assert [m] + [s] == [m, s] && [f.minute] + [f.second] == [f.minute, f.second];
    if ambient {
      ParseCons(m, [], f.minute, []);
      assert [m] + [] == [m] && [f.minute] + [] == [f.minute];
      ParseCons(h, [m], f.hour, [f.minute]);
      assert [h] + [m] == [h, m] && [f.hour] + [f.minute] == [f.hour, f.minute];
    } else {
      ParseCons(h, [m, s], f.hour, [f.minute, f.second]);
      assert [h] + [m, s] == [h, m, s] && [f.hour] + [f.minute, f.second] == [f.hour, f.minute, f.second];
    }
  }

  /**
   * Shape of the text of a real calendar reading: the hour is not padded (one digit below
   * 10, two for 10 and 11), minute and second take exactly two digits, and the interactive
   * text is the ambient text followed by `:SS`.
   */
  lemma TimeTextShape(f: Fields)
    requires f.hour < 12 && f.minute < 60 && f.second < 60
    ensures |TimeText(true, f)| == (if f.hour < 10 then 4 else 5)
    ensures TimeText(false, f) == TimeText(true, f) + ":" + Pad2(f.second)
    ensures |TimeText(false, f)| == |TimeText(true, f)| + 3
    ensures TimeText(true, f)[0] == '0' ==> f.hour == 0
  {
  }

  /** The example of 9:05:07: `9:05:07` when interactive, `9:05` when ambient. */
  lemma NineOhFiveOhSeven()
    ensures TimeText(false, Fields(9, 5, 7)) == "9:05:07"
    ensures TimeText(true, Fields(9, 5, 7)) == "9:05"
  {
  }
}
