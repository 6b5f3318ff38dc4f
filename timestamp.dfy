/** The timestamp line written before each joke: `time.strftime("%Y-%m-%d %H:%M:%S")`
    wrapped as `"[" + stamp + "]\n"`. The local-time conversion is not modelled: the
    date and time components are inputs. */
module Timestamp {

  import opened Wrappers

  datatype DateTime = DateTime(year: int, month: int, day: int, hour: int, minute: int, second: int)

  /** Component ranges of a local time with a four-digit year (seconds up to 61, as
      Python's `struct_time` allows). */
  predicate ValidDateTime(dt: DateTime) {
    && 1000 <= dt.year <= 9999
    && 1 <= dt.month <= 12
    && 1 <= dt.day <= 31
    && 0 <= dt.hour <= 23
    && 0 <= dt.minute <= 59
    && 0 <= dt.second <= 61
  }

  /** A reading of the local clock. */
  type Clock = dt: DateTime | ValidDateTime(dt) witness DateTime(2000, 1, 1, 0, 0, 0)

  function Pow10(n: nat): (r: nat)
    ensures r >= 1
  {
    if n == 0 then 1 else 10 * Pow10(n - 1)
  }

  predicate IsDigit(c: char) {
    '0' <= c <= '9'
  }

  predicate AllDigits(s: string) {
    forall i :: 0 <= i < |s| ==> IsDigit(s[i])
  }

  function DigitChar(d: int): (c: char)
    requires 0 <= d < 10
    ensures IsDigit(c) && (c as int) - ('0' as int) == d
  {
    (('0' as int) + d) as char
  }

  /** The last `width` decimal digits of `n`, with leading zeros. */
  function Pad(n: nat, width: nat): (s: string)
    ensures |s| == width && AllDigits(s)
  {
    if width == 0 then "" else Pad(n / 10, width - 1) + [DigitChar(n % 10)]
  }

  /** The number a string of decimal digits denotes. */
  function DigitsValue(s: string): (n: nat)
    requires AllDigits(s)
    ensures n < Pow10(|s|)
  {
    if s == [] then 0
    else DigitsValue(s[..|s| - 1]) * 10 + ((s[|s| - 1] as int) - ('0' as int))
  }

  /** `%Y-%m-%d %H:%M:%S`. */
  function FormatTimestamp(dt: Clock): (s: string)
    ensures |s| == 19
  {
    Pad(dt.year, 4) + "-" + Pad(dt.month, 2) + "-" + Pad(dt.day, 2) + " " +
    Pad(dt.hour, 2) + ":" + Pad(dt.minute, 2) + ":" + Pad(dt.second, 2)
  }

  /** The first string pasted on the delivery path. */
  function TimestampLine(dt: Clock): (line: string)
    ensures |line| == 22
  {
    "[" + FormatTimestamp(dt) + "]\n"
  }

  /** Reads a `%Y-%m-%d %H:%M:%S` stamp back, refusing any other layout. */
  function ParseTimestamp(s: string): (r: Option<DateTime>)
    ensures r.Some? ==> ValidDateTime(r.value)
  {
    if |s| == 19 && s[4] == '-' && s[7] == '-' && s[10] == ' ' && s[13] == ':' && s[16] == ':'
       && AllDigits(s[0..4]) && AllDigits(s[5..7]) && AllDigits(s[8..10])
       && AllDigits(s[11..13]) && AllDigits(s[14..16]) && AllDigits(s[17..19])
    then
      var dt := DateTime(DigitsValue(s[0..4]), DigitsValue(s[5..7]), DigitsValue(s[8..10]),
                         DigitsValue(s[11..13]), DigitsValue(s[14..16]), DigitsValue(s[17..19]));
      if ValidDateTime(dt) then Some(dt) else None
    else None
  }

  /** Reads a whole timestamp line back. */
  function ParseTimestampLine(line: string): (r: Option<DateTime>)
  {
    if |line| == 22 && line[0] == '[' && line[20] == ']' && line[21] == '\n'
    then ParseTimestamp(line[1..20]) else None
  }

  /** Padding then reading digits gives the number back when it fits the width. */
  lemma {:induction false} PadValue(n: nat, width: nat)
    requires n < Pow10(width)
    ensures DigitsValue(Pad(n, width)) == n
  {
    if width > 0 {
      var s := Pad(n, width);
      assert s[..|s| - 1] == Pad(n / 10, width - 1);
      PadValue(n / 10, width - 1);
    }
  }

  /** Reading digits then padding to the same width gives the string back. */
  lemma {:induction false} ValuePad(s: string)
    requires AllDigits(s)
    ensures Pad(DigitsValue(s), |s|) == s
  {
    if s != [] {
      var init := s[..|s| - 1];
      var d := (s[|s| - 1] as int) - ('0' as int);
      var n := DigitsValue(s);
      assert n / 10 == DigitsValue(init) && n % 10 == d;
      ValuePad(init);
      assert s == init + [s[|s| - 1]];
    }
  }

  /** The stamp is read back as the components that produced it. */
  lemma ParseFormat(dt: Clock)
    ensures ParseTimestamp(FormatTimestamp(dt)) == Some(dt)
  {
    var s := FormatTimestamp(dt);
    assert s[0..4] == Pad(dt.year, 4);
    assert s[5..7] == Pad(dt.month, 2);
    assert s[8..10] == Pad(dt.day, 2);
    assert s[11..13] == Pad(dt.hour, 2);
    assert s[14..16] == Pad(dt.minute, 2);
    assert s[17..19] == Pad(dt.second, 2);
    PadValue(dt.year, 4);
    PadValue(dt.month, 2);
    PadValue(dt.day, 2);
    PadValue(dt.hour, 2);
    PadValue(dt.minute, 2);
    PadValue(dt.second, 2);
  }

  /** Anything the parser accepts is exactly the stamp of what it returns. */
  lemma FormatParse(s: string)
    requires ParseTimestamp(s).Some?
    ensures FormatTimestamp(ParseTimestamp(s).value) == s
  {
    var dt := ParseTimestamp(s).value;
    ValuePad(s[0..4]);
    ValuePad(s[5..7]);
    ValuePad(s[8..10]);
    ValuePad(s[11..13]);
    ValuePad(s[14..16]);
    ValuePad(s[17..19]);
    StampLayout(s);
  }

  /** A 19-character string with the separators of the layout is its six fields joined
      by them. */
  lemma StampLayout(s: string)
    requires |s| == 19 && s[4] == '-' && s[7] == '-' && s[10] == ' ' && s[13] == ':' && s[16] == ':'
    ensures s == s[0..4] + "-" + s[5..7] + "-" + s[8..10] + " " + s[11..13] + ":" + s[14..16] + ":" + s[17..19]
  {
  }

  /** Different clock readings give different stamps. */
  lemma FormatInjective(a: Clock, b: Clock)
    requires FormatTimestamp(a) == FormatTimestamp(b)
    ensures a == b
  {
    ParseFormat(a);
    ParseFormat(b);
  }

  /** The line is read back as the components that produced it. */
  lemma ParseTimestampLineInverse(dt: Clock)
    ensures ParseTimestampLine(TimestampLine(dt)) == Some(dt)
  {
    var line := TimestampLine(dt);
    assert line[1..20] == FormatTimestamp(dt);
    ParseFormat(dt);
  }

  /** The zero-padded fields of 1 January 2024, 12:00:00. */
  lemma NoonFields()
    ensures Pad(2024, 4) == "2024"
    ensures Pad(1, 2) == "01" && Pad(12, 2) == "12" && Pad(0, 2) == "00"
  {
    assert Pad(2, 1) == "2";
    assert Pad(20, 2) == "20";
    assert Pad(202, 3) == "202";
    assert Pad(0, 1) == "0";
    assert Pad(1, 1) == "1";
  }

  lemma NoonStamp()
    ensures FormatTimestamp(DateTime(2024, 1, 1, 12, 0, 0)) == "2024-01-01 12:00:00"
  {
    NoonFields();
  }

  /** 1 January 2024, 12:00:00 gives the line `[2024-01-01 12:00:00]` and a newline. */
  lemma NoonExample()
    ensures TimestampLine(DateTime(2024, 1, 1, 12, 0, 0)) == "[2024-01-01 12:00:00]\n"
  {
    NoonStamp();
    NoonBrackets(FormatTimestamp(DateTime(2024, 1, 1, 12, 0, 0)));
  }

  lemma NoonBrackets(stamp: string)
    requires stamp == "2024-01-01 12:00:00"
    ensures "[" + stamp + "]\n" == "[2024-01-01 12:00:00]\n"
  {
  }
}
