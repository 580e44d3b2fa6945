/** `_timestamps.py`: RFC 3339 text to signed DateTime64(9) ticks and back. */
module Timestamps {
  import opened Common
  import opened Decimal
  import opened Calendar

  const MIN_TICKS := -0x8000_0000_0000_0000
  const MAX_TICKS := 0x7fff_ffff_ffff_ffff

  /** Tick counts that a DateTime64(9) column can hold. */
  predicate Storable(ticks: int) { MIN_TICKS <= ticks <= MAX_TICKS }

  // ---- Instants -------------------------------------------------------------

  datatype Civil = Civil(date: Date, hour: int, minute: int, second: int) {
    predicate Valid() {
      date.Valid() && 0 <= hour <= 23 && 0 <= minute <= 59 && 0 <= second <= 59
    }

    /** Seconds since 1970-01-01T00:00:00, reading the fields as UTC. */
    function Seconds(): int
      requires 1 <= date.month <= 12
    {
      (DayNumber(date) - EPOCH_DAY) * 86400 + hour * 3600 + minute * 60 + second
    }
  }

  predicate InCalendar(seconds: int) {
    -719162 * 86400 <= seconds < 2932897 * 86400
  }

  lemma {:induction false} SplitSeconds(seconds: int)
    ensures var day, rest := seconds / 86400, seconds % 86400;
            && seconds == day * 86400 + (rest / 3600) * 3600 + (rest / 60 % 60) * 60 + rest % 60
            && 0 <= rest / 3600 <= 23 && 0 <= rest / 60 % 60 <= 59 && 0 <= rest % 60 <= 59
            && (InCalendar(seconds) ==> 0 <= day + EPOCH_DAY <= LAST_DAY)
  {
    var rest := seconds % 86400;
    assert rest / 60 / 60 == rest / 3600;
  }

  /** The UTC fields of a second that lies inside the calendar. */
  function CivilOfSeconds(seconds: int): (civil: Civil)
    requires InCalendar(seconds)
    ensures civil.Valid() && civil.Seconds() == seconds
  {
    var day := seconds / 86400 + EPOCH_DAY;
    var rest := seconds % 86400;
    SplitSeconds(seconds);
    DayInCalendar(day);
    Civil(DateOfDay(day), rest / 3600, rest / 60 % 60, rest % 60)
  }

  /** The seconds inside the calendar are exactly those of its civil times. */
  lemma {:induction false} CalendarExact(seconds: int)
    ensures InCalendar(seconds) <==> exists c: Civil :: c.Valid() && c.Seconds() == seconds
  {
    if InCalendar(seconds) {
      assert CivilOfSeconds(seconds).Valid() && CivilOfSeconds(seconds).Seconds() == seconds;
    } else if c: Civil :| c.Valid() && c.Seconds() == seconds {
      DayNumberOrder(c.date, c.date);
    }
  }

  // ---- Parsing --------------------------------------------------------------

  /** The three capture groups of the timestamp expression. */
  datatype Groups = Groups(whole: string, fraction: string, offset: string)

  predicate WholeShape(s: string) {
    && |s| == 19
    && AllDigits(s[0..4]) && s[4] == '-' && AllDigits(s[5..7]) && s[7] == '-' && AllDigits(s[8..10])
    && s[10] in {'T', 't', ' '}
    && AllDigits(s[11..13]) && s[13] == ':' && AllDigits(s[14..16]) && s[16] == ':' && AllDigits(s[17..19])
  }

  predicate OffsetShape(s: string) {
    || s == "Z"
    || s == "z"
    || (&& |s| == 6
        && s[0] in {'+', '-'}
        && AllDigits(s[1..3]) && s[3] == ':' && AllDigits(s[4..6]) && s[4] <= '5')
  }

  function LeadingDigits(s: string): (n: nat)
    ensures n <= |s| && AllDigits(s[..n])
    ensures n < |s| ==> !IsDigit(s[n])
  {
    if s == "" || !IsDigit(s[0]) then 0 else
      var n := LeadingDigits(s[1..]);
      assert s[..n + 1] == [s[0]] + s[1..][..n];
      n + 1
  }

  /** The optional fraction and the offset behind the 19 leading characters. */
  function MatchTail(tail: string): (r: Option<(string, string)>)
    ensures r.Some? ==> |r.value.0| <= 9 && AllDigits(r.value.0) && OffsetShape(r.value.1)
  {
    if tail != "" && tail[0] == '.' then
      var n := LeadingDigits(tail[1..]);
      var fraction, offset := tail[1..][..n], tail[1..][n..];
      if 1 <= n <= 9 && OffsetShape(offset) then Some((fraction, offset)) else None
    else if OffsetShape(tail) then Some(("", tail))
    else None
  }

  function FractionText(fraction: string): string {
    if fraction == "" then "" else "." + fraction
  }

  predicate GroupsShape(g: Groups) {
    WholeShape(g.whole) && |g.fraction| <= 9 && AllDigits(g.fraction) && OffsetShape(g.offset)
  }

  /** Full match of the timestamp expression. */
  function Match(text: string): (r: Option<Groups>)
    ensures r.Some? ==> GroupsShape(r.value)
  {
    if |text| < 19 || !WholeShape(text[..19]) then None else
    match MatchTail(text[19..])
    case None => None
    case Some((fraction, offset)) => Some(Groups(text[..19], fraction, offset))
  }

  function CivilOfWhole(s: string): Civil
    requires WholeShape(s)
  {
    Civil(Date(Number(s[0..4]), Number(s[5..7]), Number(s[8..10])),
          Number(s[11..13]), Number(s[14..16]), Number(s[17..19]))
  }

  function OffsetMinutes(s: string): int
    requires OffsetShape(s)
  {
    if s == "Z" || s == "z" then 0 else
    var minutes := Number(s[1..3]) * 60 + Number(s[4..6]);
    if s[0] == '-' then -minutes else minutes
  }

  function Zeros(n: nat): (s: string)
    ensures |s| == n && AllDigits(s) && Number(s) == 0
  {
    if n == 0 then "" else
      var s := Zeros(n - 1) + ['0'];
      assert s[..n - 1] == Zeros(n - 1);
      s
  }

  /** The nanosecond part: the fraction padded on the right to nine digits. */
  function Nanos(fraction: string): nat
    requires |fraction| <= 9 && AllDigits(fraction)
  {
    Number(fraction + Zeros(9 - |fraction|))
  }

  lemma {:induction false} NanosValue(fraction: string)
    requires |fraction| <= 9 && AllDigits(fraction)
    ensures Nanos(fraction) == Number(fraction) * Pow10(9 - |fraction|)
  {
    NumberConcat(fraction, Zeros(9 - |fraction|));
  }

  /** The checks behind the expression: calendar, offset, the shift to UTC, 64 bits. */
  function Ticks(civil: Civil, offset: int, nanos: nat): (r: Result<int>)
    ensures r.Ok? ==> Storable(r.value)
  {
    if !civil.Valid() || !(-1440 < offset < 1440) then Err(BadCalendar) else
    var seconds := civil.Seconds() - offset * 60;
    if !InCalendar(seconds) then Err(CalendarOverflow) else
    var ticks := seconds * 1_000_000_000 + nanos;
    if !Storable(ticks) then Err(OutOfRange) else Ok(ticks)
  }

  /** `timestamp_nanoseconds` on text. */
  function TimestampNanoseconds(text: string): (r: Result<int>)
    ensures r.Ok? ==> Storable(r.value)
  {
    match Match(text)
    case None => Err(BadSyntax)
    case Some(g) => Ticks(CivilOfWhole(g.whole), OffsetMinutes(g.offset), Nanos(g.fraction))
  }

  // ---- Printing -------------------------------------------------------------

  /** Fields that fit their digit positions. */
  predicate Printable(civil: Civil) {
    && 0 <= civil.date.year < 10000 && 0 <= civil.date.month < 100 && 0 <= civil.date.day < 100
    && 0 <= civil.hour < 100 && 0 <= civil.minute < 100 && 0 <= civil.second < 100
  }

  function DateText(civil: Civil, separator: char): (s: string)
    requires Printable(civil)
    ensures |s| == 19
  {
    Digits(civil.date.year, 4) + "-" + Digits(civil.date.month, 2) + "-" + Digits(civil.date.day, 2)
    + [separator]
    + Digits(civil.hour, 2) + ":" + Digits(civil.minute, 2) + ":" + Digits(civil.second, 2)
  }

  /** `timestamp_text`: the parameter spelling, and the two result spellings that
      keep microseconds short. The engine hands over 64-bit ticks only. */
  function TimestampText(ticks: int, parameter: bool): string
    requires Storable(ticks)
  {
    var seconds, nanos := ticks / 1_000_000_000, ticks % 1_000_000_000;
    var whole := CivilOfSeconds(seconds);
    if parameter then DateText(whole, ' ') + "." + Digits(nanos, 9)
    else if nanos % 1000 == 0 then
      DateText(whole, 'T') + (if nanos == 0 then "" else "." + Digits(nanos / 1000, 6)) + "Z"
    else DateText(whole, 'T') + "." + Digits(nanos, 9) + "Z"
  }

  // ---- The grammar of RFC 3339, section 5.6 ---------------------------------

  datatype Zone = Zulu(letter: char) | Numeric(negative: bool, hours: nat, minutes: nat)

  function OffsetText(negative: bool, hours: nat, minutes: nat): (s: string)
    ensures |s| == 6 && s[0] == (if negative then '-' else '+') && s[3] == ':'
    ensures s[1..3] == Digits(hours, 2) && s[4..6] == Digits(minutes, 2)
  {
    [if negative then '-' else '+'] + Digits(hours, 2) + ":" + Digits(minutes, 2)
  }

  /** One way of writing an instant down. */
  datatype Spelling = Spelling(civil: Civil, separator: char, fraction: string, zone: Zone) {

    /** The spelling is inside the grammar that the adapter accepts. */
    predicate Grammatical() {
      && Printable(civil)
      && separator in {'T', 't', ' '}
      && |fraction| <= 9 && AllDigits(fraction)
      && match zone
         case Zulu(letter) => letter in {'Z', 'z'}
         case Numeric(_, hours, minutes) => hours < 100 && minutes < 60
    }

    function ZoneMinutes(): int {
      match zone
      case Zulu(_) => 0
      case Numeric(negative, hours, minutes) =>
        if negative then -(hours * 60 + minutes) else hours * 60 + minutes
    }

    function ZoneText(): string
      requires zone.Numeric? ==> zone.hours < 100 && zone.minutes < 60
    {
      match zone
      case Zulu(letter) => [letter]
      case Numeric(negative, hours, minutes) =>
        OffsetText(negative, hours, minutes)
    }

    function Render(): string
      requires Grammatical()
    {
      DateText(civil, separator) + FractionText(fraction) + ZoneText()
    }

    /** Seconds and ticks of the instant that the spelling names. */
    function UtcSeconds(): int
      requires 1 <= civil.date.month <= 12
    {
      civil.Seconds() - ZoneMinutes() * 60
    }

    /** The first digit of the fraction counts tenths of a second, and so on. */
    function Instant(): int
      requires Grammatical() && civil.Valid()
    {
      UtcSeconds() * 1_000_000_000 + Number(fraction) * Pow10(9 - |fraction|)
    }

    /** What RFC 3339 says the spelling denotes, within the calendar and 64 bits. A leap
        second (second 60) has no place in the calendar of the adapter. */
    function Reading(): Result<int>
      requires Grammatical()
    {
      if !civil.Valid() || !(-1440 < ZoneMinutes() < 1440) then Err(BadCalendar)
      else if !InCalendar(UtcSeconds()) then Err(CalendarOverflow)
      else if !Storable(Instant()) then Err(OutOfRange)
      else Ok(Instant())
    }
  }

  lemma {:induction false} DateTextShape(civil: Civil, separator: char)
    requires Printable(civil) && separator in {'T', 't', ' '}
    ensures WholeShape(DateText(civil, separator))
    ensures CivilOfWhole(DateText(civil, separator)) == civil
  {
    var s := DateText(civil, separator);
    PowersOfTen();
    assert s[0..4] == Digits(civil.date.year, 4);
    assert s[5..7] == Digits(civil.date.month, 2);
    assert s[8..10] == Digits(civil.date.day, 2);
    assert s[11..13] == Digits(civil.hour, 2);
    assert s[14..16] == Digits(civil.minute, 2);
    assert s[17..19] == Digits(civil.second, 2);
    NumberOfDigits(civil.date.year, 4);
    NumberOfDigits(civil.date.month, 2);
    NumberOfDigits(civil.date.day, 2);
    NumberOfDigits(civil.hour, 2);
    NumberOfDigits(civil.minute, 2);
    NumberOfDigits(civil.second, 2);
  }

  /** A two-digit field starts with its tens digit. */
  lemma {:induction false} TwoDigits(n: nat)
    requires n < 100
    ensures Digits(n, 2) == [Digit(n / 10), Digit(n % 10)]
    ensures Number(Digits(n, 2)) == n
  {
    assert Digits(n / 10, 1) == Digits(n / 10 / 10, 0) + [Digit(n / 10 % 10)];
    assert Pow10(2) == 100 by { assert Pow10(1) == 10; }
    NumberOfDigits(n, 2);
  }

  lemma {:induction false} OffsetTextShape(negative: bool, hours: nat, minutes: nat)
    requires hours < 100 && minutes < 60
    ensures var s := OffsetText(negative, hours, minutes);
            && OffsetShape(s)
            && OffsetMinutes(s) == (if negative then -(hours * 60 + minutes) else hours * 60 + minutes)
  {
    TwoDigits(hours);
    TwoDigits(minutes);
    var s := OffsetText(negative, hours, minutes);
    assert s[4] == s[4..6][0];
  }

  lemma {:induction false} ZoneTextShape(s: Spelling)
    requires s.Grammatical()
    ensures OffsetShape(s.ZoneText())
    ensures OffsetMinutes(s.ZoneText()) == s.ZoneMinutes()
  {
    if s.zone.Numeric? {
      OffsetTextShape(s.zone.negative, s.zone.hours, s.zone.minutes);
    }
  }

  lemma {:induction false} LeadingDigitsExact(digits: string, rest: string)
    requires AllDigits(digits)
    requires rest == "" || !IsDigit(rest[0])
    ensures LeadingDigits(digits + rest) == |digits|
  {
    if digits == "" {
      assert digits + rest == rest;
    } else {
      LeadingDigitsExact(digits[1..], rest);
      assert (digits + rest)[1..] == digits[1..] + rest;
    }
  }

  lemma {:induction false} OffsetStart(offset: string)
    requires OffsetShape(offset)
    ensures offset != "" && offset[0] != '.' && !IsDigit(offset[0])
  {}

  lemma {:induction false} TailMatches(fraction: string, offset: string)
    requires |fraction| <= 9 && AllDigits(fraction) && OffsetShape(offset)
    ensures MatchTail(FractionText(fraction) + offset) == Some((fraction, offset))
  {
    hide OffsetShape, LeadingDigits;
    var tail := FractionText(fraction) + offset;
    OffsetStart(offset);
    if fraction == "" {
      assert tail == offset;
    } else {
      assert tail[1..] == fraction + offset;
      LeadingDigitsExact(fraction, offset);
      assert (fraction + offset)[..|fraction|] == fraction && (fraction + offset)[|fraction|..] == offset;
    }
  }

  lemma {:induction false} SplitAt19(whole: string, fraction: string, zone: string)
    requires |whole| == 19
    ensures (whole + fraction + zone)[..19] == whole
    ensures (whole + fraction + zone)[19..] == fraction + zone
  {}

  lemma {:induction false} RenderMatches(s: Spelling)
    requires s.Grammatical()
    ensures Match(s.Render()) == Some(Groups(DateText(s.civil, s.separator), s.fraction, s.ZoneText()))
  {
    DateTextShape(s.civil, s.separator);
    ZoneTextShape(s);
    TailMatches(s.fraction, s.ZoneText());
    SplitAt19(DateText(s.civil, s.separator), FractionText(s.fraction), s.ZoneText());
  }

  lemma {:induction false} SpellingTicks(s: Spelling)
    requires s.Grammatical()
    ensures TimestampNanoseconds(s.Render()) == Ticks(s.civil, s.ZoneMinutes(), Nanos(s.fraction))
  {
    RenderMatches(s);
    DateTextShape(s.civil, s.separator);
    ZoneTextShape(s);
  }

  lemma {:induction false} TicksOfSpelling(s: Spelling, r: Result<int>)
    requires s.Grammatical()
    requires r == Ticks(s.civil, s.ZoneMinutes(), Nanos(s.fraction))
    ensures r == s.Reading()
  {
    hide Number, Pow10, Nanos;
    NanosValue(s.fraction);
  }

  /** Every spelling of the grammar, with any offset, parses to the ticks of the instant
      it names, or is refused for exactly the stated reason. */
  lemma {:induction false} SpellingParses(s: Spelling)
    requires s.Grammatical()
    ensures TimestampNanoseconds(s.Render()) == s.Reading()
  {
    SpellingTicks(s);
    TicksOfSpelling(s, TimestampNanoseconds(s.Render()));
  }

  lemma {:induction false} Associate(a: int, b: int, c: int)
    ensures a * b * c == a * (b * c)
  {}

  lemma {:induction false} SplitPower(n: int, a: nat, b: nat)
    ensures n * Pow10(a) * Pow10(b) == n * Pow10(a + b)
  {
    hide Pow10;
    PowersAdd(a, b);
    Associate(n, Pow10(a), Pow10(b));
  }

  /** As fractions: the instant is past its second by exactly the fraction's digits over the power
      of ten of their number. */
  lemma {:induction false} FractionExact(s: Spelling)
    requires s.Grammatical() && TimestampNanoseconds(s.Render()).Ok?
    ensures s.civil.Valid()
    ensures (TimestampNanoseconds(s.Render()).value - s.UtcSeconds() * 1_000_000_000) * Pow10(|s.fraction|)
         == Number(s.fraction) * 1_000_000_000
  {
    hide Number, Pow10, TimestampNanoseconds, InCalendar, Storable;
    SpellingParses(s);
    SplitPower(Number(s.fraction), 9 - |s.fraction|, |s.fraction|);
    assert Pow10(9) == 1_000_000_000 by { PowersOfTen(); }
  }

  lemma {:induction false} SameReading(s: Spelling, t: Spelling)
    requires s.Grammatical() && t.Grammatical() && t == s.(fraction := t.fraction)
    requires Number(s.fraction) * Pow10(9 - |s.fraction|) == Number(t.fraction) * Pow10(9 - |t.fraction|)
    ensures s.Reading() == t.Reading()
  {
    hide Number, Pow10, InCalendar, Storable, Printable, Civil.Seconds;
  }

  /** Zeros at the end of a fraction never change what is parsed. */
  lemma {:induction false} TrailingZeros(s: Spelling, zeros: nat)
    requires s.Grammatical() && |s.fraction| + zeros <= 9
    ensures s.(fraction := s.fraction + Zeros(zeros)).Grammatical()
    ensures TimestampNanoseconds(s.(fraction := s.fraction + Zeros(zeros)).Render()) == TimestampNanoseconds(s.Render())
  {
    hide Number, Pow10, TimestampNanoseconds, InCalendar, Storable, Zeros, Printable, Civil.Seconds;
    var longer := s.(fraction := s.fraction + Zeros(zeros));
    SpellingParses(s);
    assert AllDigits(longer.fraction) by { NumberConcat(s.fraction, Zeros(zeros)); }
    SpellingParses(longer);
    NumberConcat(s.fraction, Zeros(zeros));
    SplitPower(Number(s.fraction), zeros, 9 - |longer.fraction|);
    SameReading(s, longer);
  }

  lemma {:induction false} TailSplits(tail: string)
    ensures MatchTail(tail).Some? ==> tail == FractionText(MatchTail(tail).value.0) + MatchTail(tail).value.1
  {
    hide OffsetShape, LeadingDigits;
    if tail != "" && tail[0] == '.' {
      var n := LeadingDigits(tail[1..]);
      assert tail[1..] == tail[1..][..n] + tail[1..][n..];
      assert tail == "." + tail[1..][..n] + tail[1..][n..];
    }
  }

  lemma {:induction false} Regrouped(text: string, g: Groups)
    requires Match(text) == Some(g)
    ensures text == g.whole + FractionText(g.fraction) + g.offset
  {
    hide WholeShape, OffsetShape, AllDigits, MatchTail, FractionText;
    TailSplits(text[19..]);
    assert text == text[..19] + text[19..];
    assert g.whole + (FractionText(g.fraction) + g.offset) == g.whole + FractionText(g.fraction) + g.offset;
  }

  lemma {:induction false} MatchedGroups(text: string) returns (g: Groups)
    requires TimestampNanoseconds(text) != Err(BadSyntax)
    ensures GroupsShape(g) && text == g.whole + FractionText(g.fraction) + g.offset
  {
    hide WholeShape, OffsetShape, AllDigits, MatchTail, Ticks, Nanos, CivilOfWhole, OffsetMinutes, FractionText;
    g := Match(text).value;
    Regrouped(text, g);
  }

  lemma {:induction false} TwoDigitField(s: string)
    requires |s| == 2 && AllDigits(s)
    ensures Number(s) < 100 && Digits(Number(s), 2) == s
    ensures Number(s) / 10 == DigitValue(s[0])
  {
    DigitsOfNumber(s);
    assert Pow10(2) == 100 by { assert Pow10(1) == 10; }
    TwoDigits(Number(s));
  }

  lemma {:induction false} ZoneOfOffset(z: string) returns (zone: Zone)
    requires OffsetShape(z)
    ensures match zone
            case Zulu(letter) => letter in {'Z', 'z'} && z == [letter]
            case Numeric(negative, hours, minutes) =>
              hours < 100 && minutes < 60 && z == OffsetText(negative, hours, minutes)
  {
    if z == "Z" || z == "z" {
      zone := Zulu(z[0]);
    } else {
      TwoDigitField(z[1..3]);
      TwoDigitField(z[4..6]);
      zone := Numeric(z[0] == '-', Number(z[1..3]), Number(z[4..6]));
      assert z == [z[0]] + z[1..3] + ":" + z[4..6];
    }
  }

  lemma {:induction false} Pieces(w: string)
    requires |w| == 19
    ensures w == w[0..4] + [w[4]] + w[5..7] + [w[7]] + w[8..10] + [w[10]]
                 + w[11..13] + [w[13]] + w[14..16] + [w[16]] + w[17..19]
  {}

  lemma {:induction false} WholeIsDateText(w: string)
    requires WholeShape(w)
    ensures Printable(CivilOfWhole(w)) && DateText(CivilOfWhole(w), w[10]) == w
  {
    DigitsOfNumber(w[0..4]);
    assert Pow10(4) == 10000 by { PowersOfTen(); }
    TwoDigitField(w[5..7]);
    TwoDigitField(w[8..10]);
    TwoDigitField(w[11..13]);
    TwoDigitField(w[14..16]);
    TwoDigitField(w[17..19]);
    Pieces(w);
  }

  /** Nothing outside the grammar is accepted: matched text is the rendering of its own groups. */
  lemma {:induction false} MatchedIsSpelling(text: string) returns (s: Spelling)
    requires TimestampNanoseconds(text) != Err(BadSyntax)
    ensures s.Grammatical() && s.Render() == text
  {
    var g := MatchedGroups(text);
    WholeIsDateText(g.whole);
    var zone := ZoneOfOffset(g.offset);
    s := Spelling(CivilOfWhole(g.whole), g.whole[10], g.fraction, zone);
  }

  // ---- Round trips ----------------------------------------------------------

  function ResultFraction(nanos: nat): (s: string)
    ensures |s| <= 9 && AllDigits(s)
  {
    if nanos == 0 then "" else if nanos % 1000 == 0 then Digits(nanos / 1000, 6) else Digits(nanos, 9)
  }

  /** The spelling that a tick count is printed in. */
  function ResultSpelling(ticks: int): (s: Spelling)
    requires Storable(ticks)
    ensures s.Grammatical() && s.civil.Valid()
  {
    var seconds, nanos := ticks / 1_000_000_000, ticks % 1_000_000_000;
    Spelling(CivilOfSeconds(seconds), 'T', ResultFraction(nanos), Zulu('Z'))
  }

  lemma {:induction false} PowersOfTen()
    ensures Pow10(2) == 100 && Pow10(3) == 1000 && Pow10(4) == 10000 && Pow10(6) == 1_000_000
            && Pow10(9) == 1_000_000_000
  {
    assert Pow10(1) == 10;
    assert Pow10(2) == 100;
    assert Pow10(3) == 1000;
    assert Pow10(4) == 10000;
    assert Pow10(5) == 100_000;
    assert Pow10(6) == 1_000_000;
    assert Pow10(7) == 10_000_000;
    assert Pow10(8) == 100_000_000;
  }

  lemma {:induction false} NanosOfDigits(nanos: nat)
    requires nanos < 1_000_000_000
    ensures Nanos(Digits(nanos, 9)) == nanos
    ensures nanos % 1000 == 0 ==> Nanos(Digits(nanos / 1000, 6)) == nanos
    ensures Nanos("") == 0
  {
    PowersOfTen();
    NumberOfDigits(nanos, 9);
    assert Digits(nanos, 9) + Zeros(0) == Digits(nanos, 9);
    assert "" + Zeros(9) == Zeros(9);
    if nanos % 1000 == 0 {
      NumberOfDigits(nanos / 1000, 6);
      NumberConcat(Digits(nanos / 1000, 6), Zeros(3));
    }
  }

  lemma {:induction false} SpellingInstant(s: Spelling, ticks: int)
    requires Storable(ticks)
    requires s.Grammatical() && s.zone == Zulu('Z') && s.civil == CivilOfSeconds(ticks / 1_000_000_000)
    requires Nanos(s.fraction) == ticks % 1_000_000_000
    ensures s.civil.Valid() && s.Reading() == Ok(ticks)
  {
    hide Number, Pow10, Nanos;
    NanosValue(s.fraction);
  }

  lemma {:induction false} PrintedFraction(nanos: nat)
    requires nanos < 1_000_000_000
    ensures FractionText(ResultFraction(nanos)) ==
            if nanos % 1000 != 0 then "." + Digits(nanos, 9)
            else if nanos == 0 then "" else "." + Digits(nanos / 1000, 6)
  {}

  lemma {:induction false} Regroup(whole: string, digits: string)
    ensures whole + "." + digits + "Z" == whole + ("." + digits) + "Z"
  {}

  lemma {:induction false} ResultSpellingText(ticks: int)
    requires Storable(ticks)
    ensures TimestampText(ticks, false) == ResultSpelling(ticks).Render()
  {
    var s := ResultSpelling(ticks);
    var whole, nanos := DateText(s.civil, 'T'), ticks % 1_000_000_000;
    assert s.Render() == whole + FractionText(s.fraction) + "Z" by {
      assert s.ZoneText() == "Z";
    }
    PrintedFraction(nanos);
    if nanos % 1000 == 0 {
      assert TimestampText(ticks, false) == whole + FractionText(ResultFraction(nanos)) + "Z";
    } else {
      Regroup(whole, Digits(nanos, 9));
      assert TimestampText(ticks, false) == whole + "." + Digits(nanos, 9) + "Z";
    }
  }

  /** Printing any 64-bit tick count as a result and parsing it gives the ticks back. */
  lemma {:induction false} ResultRoundTrip(ticks: int)
    requires Storable(ticks)
    ensures TimestampNanoseconds(TimestampText(ticks, false)) == Ok(ticks)
  {
    ResultSpellingText(ticks);
    SpellingParses(ResultSpelling(ticks));
    NanosOfDigits(ticks % 1_000_000_000);
    SpellingInstant(ResultSpelling(ticks), ticks);
  }

  /** The engine reads a bound parameter as UTC text with nine fractional digits. */
  function ReadParameter(text: string): Result<int> {
    if |text| == 29 && text[19] == '.' then TimestampNanoseconds(text + "Z") else Err(BadSyntax)
  }

  function ParameterSpelling(ticks: int): (s: Spelling)
    requires Storable(ticks)
    ensures s.Grammatical() && s.civil.Valid()
  {
    Spelling(CivilOfSeconds(ticks / 1_000_000_000), ' ', Digits(ticks % 1_000_000_000, 9), Zulu('Z'))
  }

  lemma {:induction false} ParameterSpellingText(ticks: int)
    requires Storable(ticks)
    ensures TimestampText(ticks, true) + "Z" == ParameterSpelling(ticks).Render()
    ensures |TimestampText(ticks, true)| == 29 && TimestampText(ticks, true)[19] == '.'
  {
    var s := ParameterSpelling(ticks);
    assert s.ZoneText() == "Z";
  }

  /** The parameter spelling names the same instant at the engine. */
  lemma {:induction false} ParameterRoundTrip(ticks: int)
    requires Storable(ticks)
    ensures ReadParameter(TimestampText(ticks, true)) == Ok(ticks)
  {
    ParameterSpellingText(ticks);
    SpellingParses(ParameterSpelling(ticks));
    NanosOfDigits(ticks % 1_000_000_000);
    SpellingInstant(ParameterSpelling(ticks), ticks);
  }

  /** Reprinting an accepted text is stable: it names the same ticks, and printing again changes nothing. */
  lemma {:induction false} PrintOfParseIdempotent(text: string)
    requires TimestampNanoseconds(text).Ok?
    ensures var ticks := TimestampNanoseconds(text).value;
            && TimestampNanoseconds(TimestampText(ticks, false)) == Ok(ticks)
            && (text == TimestampText(ticks, false) <==> exists t :: Storable(t) && text == TimestampText(t, false))
  {
    var ticks := TimestampNanoseconds(text).value;
    ResultRoundTrip(ticks);
    forall t | Storable(t) && text == TimestampText(t, false) ensures t == ticks {
      ResultRoundTrip(t);
    }
  }

  // ---- Order of the parameter text ------------------------------------------

  /** Appending a separator and a digit field refines the comparison by that field. */
  lemma {:induction false} FieldOrder(p: string, p': string, separator: string, x: nat, x': nat, w: nat)
    requires |p| == |p'| && x < Pow10(w) && x' < Pow10(w)
    ensures var t, t' := p + separator + Digits(x, w), p' + separator + Digits(x', w);
            && (TextLess(t, t') <==> TextLess(p, p') || (p == p' && x < x'))
            && (t == t' <==> p == p' && x == x')
  {
    TextLessConcat(p, p', separator, separator);
    TextTrichotomy(separator, separator);
    TextLessConcat(p + separator, p' + separator, Digits(x, w), Digits(x', w));
    DigitsOrder(x, x', w);
    if p + separator == p' + separator {
      assert (p + separator)[..|p|] == p && (p' + separator)[..|p|] == p';
    }
    var t, t' := p + separator + Digits(x, w), p' + separator + Digits(x', w);
    if t == t' {
      assert t[..|p + separator|] == p + separator && t'[..|p + separator|] == p' + separator;
      assert t[|p + separator|..] == Digits(x, w) && t'[|p + separator|..] == Digits(x', w);
    }
  }

  predicate CivilBefore(a: Civil, b: Civil) {
    || Earlier(a.date, b.date)
    || (a.date == b.date && (a.hour < b.hour
        || (a.hour == b.hour && (a.minute < b.minute
            || (a.minute == b.minute && a.second < b.second)))))
  }

  lemma {:induction false} DateTextOrder(a: Civil, b: Civil, separator: char)
    requires a.Valid() && b.Valid()
    ensures TextLess(DateText(a, separator), DateText(b, separator)) <==> CivilBefore(a, b)
    ensures DateText(a, separator) == DateText(b, separator) <==> a == b
  {
    hide TextLess, Digits, Pow10;
    PowersOfTen();
    var a1, b1 := Digits(a.date.year, 4), Digits(b.date.year, 4);
    DigitsOrder(a.date.year, b.date.year, 4);
    FieldOrder(a1, b1, "-", a.date.month, b.date.month, 2);
    var a2, b2 := a1 + "-" + Digits(a.date.month, 2), b1 + "-" + Digits(b.date.month, 2);
    FieldOrder(a2, b2, "-", a.date.day, b.date.day, 2);
    var a3, b3 := a2 + "-" + Digits(a.date.day, 2), b2 + "-" + Digits(b.date.day, 2);
    FieldOrder(a3, b3, [separator], a.hour, b.hour, 2);
    var a4, b4 := a3 + [separator] + Digits(a.hour, 2), b3 + [separator] + Digits(b.hour, 2);
    FieldOrder(a4, b4, ":", a.minute, b.minute, 2);
    var a5, b5 := a4 + ":" + Digits(a.minute, 2), b4 + ":" + Digits(b.minute, 2);
    FieldOrder(a5, b5, ":", a.second, b.second, 2);
  }

  lemma {:induction false} TimeOfDayOrder(day: int, h: int, m: int, s: int, day': int, h': int, m': int, s': int)
    requires 0 <= h <= 23 && 0 <= m <= 59 && 0 <= s <= 59
    requires 0 <= h' <= 23 && 0 <= m' <= 59 && 0 <= s' <= 59
    ensures (day * 86400 + h * 3600 + m * 60 + s < day' * 86400 + h' * 3600 + m' * 60 + s') <==>
            (day < day' || (day == day' && (h < h' || (h == h' && (m < m' || (m == m' && s < s'))))))
    ensures day * 86400 + h * 3600 + m * 60 + s == day' * 86400 + h' * 3600 + m' * 60 + s' ==>
            day == day' && h == h' && m == m' && s == s'
  {}

  lemma {:induction false} SecondsOrder(a: Civil, b: Civil)
    requires a.Valid() && b.Valid()
    ensures CivilBefore(a, b) <==> a.Seconds() < b.Seconds()
    ensures a.Seconds() == b.Seconds() ==> a == b
  {
    DayNumberOrder(a.date, b.date);
    DayNumberOrder(b.date, a.date);
    TimeOfDayOrder(DayNumber(a.date), a.hour, a.minute, a.second, DayNumber(b.date), b.hour, b.minute, b.second);
  }

  lemma {:induction false} TicksOrder(a: int, b: int)
    ensures a < b <==> a / 1_000_000_000 < b / 1_000_000_000 ||
                       (a / 1_000_000_000 == b / 1_000_000_000 && a % 1_000_000_000 < b % 1_000_000_000)
  {}

  /** Parameter text sorts exactly like the ticks it denotes, over the whole 64-bit range,
      so no two tick counts share a parameter text. */
  lemma {:induction false} ParameterOrder(a: int, b: int)
    requires Storable(a) && Storable(b)
    ensures TextLess(TimestampText(a, true), TimestampText(b, true)) <==> a < b
    ensures TimestampText(a, true) == TimestampText(b, true) <==> a == b
  {
    PowersOfTen();
    var ca, cb := CivilOfSeconds(a / 1_000_000_000), CivilOfSeconds(b / 1_000_000_000);
    DateTextOrder(ca, cb, ' ');
    SecondsOrder(ca, cb);
    FieldOrder(DateText(ca, ' '), DateText(cb, ' '), ".", a % 1_000_000_000, b % 1_000_000_000, 9);
    TicksOrder(a, b);
  }
}
