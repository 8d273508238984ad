/** Timestamps as text: printing, parsing, and the round trip between them. */
module TimeText {
  import opened Base
  import opened Time

  /** A moment: whole seconds since the Unix epoch, and nanoseconds. */
  datatype Instant = Instant(secs: nat, nanos: nat)

  const DASH: byte := 0x2d
  const COLON: byte := 0x3a
  const POINT: byte := 0x2e
  const TEE: byte := 0x54
  const ZED: byte := 0x5a
  const PLUS: byte := 0x2b
  const ZERO: byte := 0x30

  const TWO63: int := 0x8000_0000_0000_0000

  predicate FitsI64(x: int) {
    -TWO63 <= x < TWO63
  }

  // ---- numbers as text ----

  predicate IsDigit(b: byte) {
    ZERO <= b < ZERO + 10
  }

  /** At least `w` digits, zero-padded; more when the number needs them. */
  function Padded(n: nat, w: nat): Str
    decreases n, w
  {
    if n == 0 && w == 0 then []
    else Padded(n / 10, if w > 0 then w - 1 else 0) + [ZERO + n % 10]
  }

  /** The value of a digit string. */
  function Value(s: Str): nat {
    if s == [] then 0 else 10 * Value(s[..|s| - 1]) + if IsDigit(s[|s| - 1]) then s[|s| - 1] - ZERO else 0
  }

  predicate AllDigits(s: Str) {
    s != [] && forall b <- s :: IsDigit(b)
  }

  /** `str::parse::<i64>`: an optional sign and digits, within range. */
  function ParseI64(s: Str): Option<int> {
    if s == [] then None
    else if s[0] == DASH then
      var v: int := Value(s[1..]);
      if AllDigits(s[1..]) && v <= TWO63 then Some(-v) else None
    else
      var digits := if s[0] == PLUS then s[1..] else s;
      if AllDigits(digits) && Value(digits) < TWO63 then Some(Value(digits)) else None
  }

  /** `str::parse::<u32>`. */
  function ParseU32(s: Str): Option<nat> {
    if s == [] then None
    else
      var digits := if s[0] == PLUS then s[1..] else s;
      if AllDigits(digits) && Value(digits) < 0x1_0000_0000 then Some(Value(digits)) else None
  }

  function Pow10(w: nat): nat {
    if w == 0 then 1 else 10 * Pow10(w - 1)
  }

  lemma {:induction false} PaddedReads(n: nat, w: nat)
    ensures Value(Padded(n, w)) == n
    ensures forall b <- Padded(n, w) :: IsDigit(b)
    ensures w > 0 || n > 0 ==> Padded(n, w) != []
    ensures n < Pow10(w) ==> |Padded(n, w)| == w
    decreases n, w
  {
    if n > 0 || w > 0 {
      var less := if w > 0 then w - 1 else 0;
      PaddedReads(n / 10, less);
      var s := Padded(n, w);
      assert s[..|s| - 1] == Padded(n / 10, less);
      assert w == 0 ==> n >= 1 == Pow10(0);
    }
  }

  /** A printed number parses back to itself. */
  lemma PaddedParses(n: nat, w: nat)
    requires w > 0
    ensures n < TWO63 ==> ParseI64(Padded(n, w)) == Some(n)
    ensures n < 0x1_0000_0000 ==> ParseU32(Padded(n, w)) == Some(n)
    ensures forall b <- Padded(n, w) :: b !in {DASH, COLON, POINT, TEE, ZED}
  {
    PaddedReads(n, w);
    assert Padded(n, w)[0] in Padded(n, w);
  }

  /** Signed numbers: a minus negates, a plus is ignored, and the range is that of 64 bits. */
  lemma SignedParses(n: nat, w: nat)
    requires w > 0
    ensures var v: int := n;
            ParseI64([DASH] + Padded(n, w)) == if v <= TWO63 then Some(-v) else None
    ensures ParseI64([PLUS] + Padded(n, w)) == if n < TWO63 then Some(n) else None
    ensures ParseU32([PLUS] + Padded(n, w)) == if n < 0x1_0000_0000 then Some(n) else None
  {
    PaddedReads(n, w);
    hide Padded, Value;
    var digits := Padded(n, w);
    assert ([DASH] + digits)[1..] == digits;
    assert ([PLUS] + digits)[1..] == digits;
  }

  // ---- splitting ----

  function IndexOf(s: Str, b: byte): (i: nat)
    ensures i <= |s| && b !in s[..i] && (i < |s| ==> s[i] == b)
  {
    if s == [] then 0
    else if s[0] == b then 0
    else
      var j := IndexOf(s[1..], b);
      assert s[..j + 1] == [s[0]] + s[1..][..j];
      j + 1
  }

  /** `str::split_once`. */
  function SplitOnce(s: Str, sep: byte): Option<(Str, Str)> {
    var i := IndexOf(s, sep);
    if i == |s| then None else Some((s[..i], s[i + 1..]))
  }

  /** `str::split`. */
  function Fields(s: Str, sep: byte): (r: seq<Str>)
    ensures r != []
    decreases |s|
  {
    match SplitOnce(s, sep)
    case None => [s]
    case Some((a, b)) => [a] + Fields(b, sep)
  }

  function TrimZ(s: Str): Str {
    if s != [] && s[|s| - 1] == ZED then TrimZ(s[..|s| - 1]) else s
  }

  lemma {:induction false} FirstIndex(s: Str, b: byte, k: nat)
    requires k < |s| && s[k] == b && b !in s[..k]
    ensures IndexOf(s, b) == k
  {
    if k > 0 {
      assert s[0] == s[..k][0] && s[1..][..k - 1] == s[..k][1..];
      FirstIndex(s[1..], b, k - 1);
    }
  }

  lemma SplitAt(a: Str, sep: byte, b: Str)
    requires sep !in a
    ensures SplitOnce(a + [sep] + b, sep) == Some((a, b))
  {
    var s := a + [sep] + b;
    assert s[|a|] == sep && s[..|a|] == a && s[|a| + 1..] == b;
    FirstIndex(s, sep, |a|);
  }

  lemma SplitNone(a: Str, sep: byte)
    requires sep !in a
    ensures SplitOnce(a, sep) == None && Fields(a, sep) == [a]
  {
  }

  lemma ThreeFields(a: Str, b: Str, c: Str, sep: byte)
    requires sep !in a && sep !in b && sep !in c
    ensures Fields(a + [sep] + (b + [sep] + c), sep) == [a, b, c]
  {
    hide SplitOnce;
    SplitAt(a, sep, b + [sep] + c);
    SplitAt(b, sep, c);
    SplitNone(c, sep);
  }

  // ---- parsing ----

  function Zeroes(n: nat): (r: Str)
    ensures |r| == n
  {
    seq(n, _ => ZERO)
  }

  /** Fractional digits, padded on the right or cut to nanoseconds. */
  function ParseFraction(frac: Str): Option<nat> {
    var padded := if |frac| < 9 then frac + Zeroes(9 - |frac|) else frac;
    ParseU32(padded[..9])
  }

  datatype Clock = Clock(hour: int, minute: int, second: int, nanos: nat)

  function ParseDate(date: Str): Option<Civil> {
    var parts := Fields(date, DASH);
    if |parts| < 3 then None
    else
      match (ParseI64(parts[0]), ParseI64(parts[1]), ParseI64(parts[2]))
      case (Some(y), Some(m), Some(d)) => Some(Civil(y, m, d))
      case _ => None
  }

  function ParseClock(time: Str): Option<Clock> {
    var parts := Fields(time, COLON);
    if |parts| < 3 then None
    else
      var (secs, nanos) := match SplitOnce(parts[2], POINT)
                           case Some((s, frac)) => (s, ParseFraction(frac))
                           case None => (parts[2], Some(0));
      match (ParseI64(parts[0]), ParseI64(parts[1]), ParseI64(secs), nanos)
      case (Some(h), Some(m), Some(s), Some(n)) => Some(Clock(h, m, s, n))
      case _ => None
  }

  function TotalSeconds(c: Civil, k: Clock): int {
    DaysFromCivil(c) * 86_400 + k.hour * 3_600 + k.minute * 60 + k.second
  }

  /** Every value on the way to the day number fits 64 signed bits. */
  predicate DateFits(c: Civil) {
    var y := MarchYear(c);
    var dividend := if y >= 0 then y else y - 399;
    var era := Div(dividend, 400);
    var doy := DayOfYear(c.month, c.day);
    var doe := YearStart(y - era * 400) + doy;
    && FitsI64(y) && FitsI64(dividend) && FitsI64(era * 400) && FitsI64(c.month + 9) && FitsI64(doy + 1) && FitsI64(doy)
    && FitsI64(doe) && FitsI64(era * 146_097) && FitsI64(era * 146_097 + doe) && FitsI64(DaysFromCivil(c))
  }

  /** Every value on the way from the day number to the seconds fits 64 signed bits. */
  predicate SecondsFit(days: int, k: Clock) {
    && FitsI64(days * 86_400) && FitsI64(k.hour * 3_600) && FitsI64(days * 86_400 + k.hour * 3_600)
    && FitsI64(k.minute * 60) && FitsI64(days * 86_400 + k.hour * 3_600 + k.minute * 60)
    && FitsI64(days * 86_400 + k.hour * 3_600 + k.minute * 60 + k.second)
  }

  /**
   * A moment, no moment, or arithmetic that leaves 64 signed bits: a panic where overflow is checked, a wrap if not.
   */
  datatype Parsed = Moment(at: Instant) | NoMoment | Overflow

  /** `parse_rfc3339`. No field of the date is negative, since the date is split at every dash. */
  function ParseRfc3339(text: Str): Parsed {
    match SplitOnce(text, TEE)
    case None => NoMoment
    case Some((date, rest)) =>
      match (ParseDate(date), ParseClock(TrimZ(rest)))
      case (Some(c), Some(k)) =>
        if !DateFits(c) || !SecondsFit(DaysFromCivil(c), k) then Overflow
        else if TotalSeconds(c, k) < 0 then NoMoment
        else Moment(Instant(TotalSeconds(c, k), k.nanos))
      case _ => NoMoment
  }

  /** A separator joins the fields of its two sides. */
  lemma {:induction false} FieldsConcat(a: Str, sep: byte, b: Str)
    ensures Fields(a + [sep] + b, sep) == Fields(a, sep) + Fields(b, sep)
    decreases |a|
  {
    hide IndexOf;
    var i := IndexOf(a, sep);
    if i == |a| {
      SplitAt(a, sep, b);
    } else {
      var x, y := a[..i], a[i + 1..];
      assert a + [sep] + b == x + [sep] + (y + [sep] + b);
      SplitAt(x, sep, y + [sep] + b);
      FieldsConcat(y, sep, b);
    }
  }

  /** Fields past the third are ignored, in the date and in the clock. */
  lemma ExtraFieldsIgnored(text: Str, more: Str)
    ensures |Fields(text, DASH)| >= 3 ==> ParseDate(text + [DASH] + more) == ParseDate(text)
    ensures |Fields(text, COLON)| >= 3 ==> ParseClock(text + [COLON] + more) == ParseClock(text)
  {
    hide ParseI64, Fields, SplitOnce, ParseFraction;
    FieldsConcat(text, DASH, more);
    FieldsConcat(text, COLON, more);
  }

  /** Any number of trailing zone letters is dropped. */
  lemma {:induction false} ZonesDropped(text: Str, n: nat)
    requires text == [] || text[|text| - 1] != ZED
    ensures TrimZ(text + seq(n, _ => ZED)) == text
    decreases n
  {
    var all := text + seq(n, _ => ZED);
    if n > 0 {
      assert all[..|all| - 1] == text + seq(n - 1, _ => ZED);
      ZonesDropped(text, n - 1);
    } else {
      assert all == text;
    }
  }

  // ---- printing ----

  function PrintedDate(year: nat, month: nat, day: nat): Str {
    Padded(year, 4) + [DASH] + (Padded(month, 2) + [DASH] + Padded(day, 2))
  }

  function PrintedSeconds(second: nat, nanos: nat): Str {
    if nanos == 0 then Padded(second, 2) else Padded(second, 2) + [POINT] + Padded(nanos, 9)
  }

  function PrintedClock(hour: nat, minute: nat, second: nat, nanos: nat): Str {
    Padded(hour, 2) + [COLON] + (Padded(minute, 2) + [COLON] + PrintedSeconds(second, nanos))
  }

  function Printed(year: nat, month: nat, day: nat, hour: nat, minute: nat, second: nat, nanos: nat): Str {
    PrintedDate(year, month, day) + [TEE] + (PrintedClock(hour, minute, second, nanos) + [ZED])
  }

  /** The date of a moment. */
  function DateOf(secs: nat): (c: Civil)
    ensures ValidDate(c) && c.year >= 1970
  {
    DaysRoundTrip(secs / 86_400);
    EpochOn(CivilFromDays(secs / 86_400));
    CivilFromDays(secs / 86_400)
  }

  /** `format_rfc3339`: whole seconds print without a fraction. */
  function FormatRfc3339(t: Instant): Str {
    var c := DateOf(t.secs);
    var rest := t.secs % 86_400;
    Printed(c.year, c.month, c.day, rest / 3600, rest % 3600 / 60, rest % 60, t.nanos)
  }

  // ---- reading what was printed ----

  lemma DateReads(year: nat, month: nat, day: nat)
    requires year < TWO63 && month < 100 && day < 100
    ensures ParseDate(PrintedDate(year, month, day)) == Some(Civil(year, month, day))
    ensures TEE !in PrintedDate(year, month, day)
  {
    hide ParseI64, Padded, Fields;
    PaddedParses(year, 4);
    PaddedParses(month, 2);
    PaddedParses(day, 2);
    ThreeFields(Padded(year, 4), Padded(month, 2), Padded(day, 2), DASH);
  }

  lemma NineDigits()
    ensures Pow10(9) == 1_000_000_000
  {
    assert Pow10(1) == 10 && Pow10(2) == 100 && Pow10(3) == 1_000 && Pow10(4) == 10_000 && Pow10(5) == 100_000;
    assert Pow10(6) == 1_000_000 && Pow10(7) == 10_000_000 && Pow10(8) == 100_000_000;
  }

  predicate Digits(s: Str) {
    forall b <- s :: IsDigit(b)
  }

  /** Nanoseconds that a fraction of a second stands for: short ones count from the left, long ones are cut. */
  function FractionNanos(frac: Str): nat {
    if |frac| <= 9 then Value(frac) * Pow10(9 - |frac|) else Value(frac[..9])
  }

  lemma {:induction false} ValueBelow(s: Str)
    ensures Value(s) < Pow10(|s|)
    decreases |s|
  {
    if s != [] {
      ValueBelow(s[..|s| - 1]);
    }
  }

  lemma {:induction false} ZeroesValue(s: Str, n: nat)
    ensures Value(s + Zeroes(n)) == Value(s) * Pow10(n)
    ensures Digits(s) ==> Digits(s + Zeroes(n))
    decreases n
  {
    if n > 0 {
      var text := s + Zeroes(n);
      assert text[..|text| - 1] == s + Zeroes(n - 1);
      ZeroesValue(s, n - 1);
      TimesTen(Value(s), Pow10(n - 1));
    } else {
      assert s + Zeroes(0) == s;
    }
  }

  lemma TimesTen(a: nat, b: nat)
    ensures 10 * (a * b) == a * (10 * b)
  {
  }

  /** A digit string of any length is read as the nanoseconds it stands for, always less than a second. */
  lemma FractionReads(frac: Str)
    requires Digits(frac)
    ensures ParseFraction(frac) == Some(FractionNanos(frac)) && FractionNanos(frac) < 1_000_000_000
  {
    hide Pow10, Value;
    NineDigits();
    var padded := if |frac| < 9 then frac + Zeroes(9 - |frac|) else frac;
    var nine := padded[..9];
    if |frac| <= 9 {
      ZeroesValue(frac, 9 - |frac|);
      assert nine == frac + Zeroes(9 - |frac|);
    }
    assert Digits(nine) && nine[0] in nine;
    ValueBelow(nine);
  }

  /** Nine printed digits are read back as they were. */
  lemma NanosRead(nanos: nat)
    requires nanos < 1_000_000_000
    ensures |Padded(nanos, 9)| == 9 && Digits(Padded(nanos, 9)) && FractionNanos(Padded(nanos, 9)) == nanos
  {
    hide Padded;
    NineDigits();
    PaddedReads(nanos, 9);
    assert Pow10(0) == 1;
  }

  /** The seconds of a timestamp, with and without a fraction. */
  function SecondsText(second: nat, frac: Option<Str>): Str {
    match frac
    case None => Padded(second, 2)
    case Some(digits) => Padded(second, 2) + [POINT] + digits
  }

  function NanosOf(frac: Option<Str>): nat {
    if frac.Some? then FractionNanos(frac.value) else 0
  }

  function ClockText(hour: nat, minute: nat, second: nat, frac: Option<Str>): Str {
    Padded(hour, 2) + [COLON] + (Padded(minute, 2) + [COLON] + SecondsText(second, frac))
  }

  lemma SecondsRead(second: nat, frac: Option<Str>)
    requires second < 60 && (frac.Some? ==> Digits(frac.value))
    ensures var text := SecondsText(second, frac);
            && COLON !in text && text != [] && text[|text| - 1] != ZED
            && SplitOnce(text, POINT) == match frac case None => None case Some(d) => Some((Padded(second, 2), d))
  {
    hide SplitOnce, Padded;
    PaddedParses(second, 2);
    PaddedReads(second, 2);
    SplitNone(Padded(second, 2), POINT);
    var text := SecondsText(second, frac);
    assert Padded(second, 2)[|Padded(second, 2)| - 1] in Padded(second, 2);
    if frac.Some? {
      SplitAt(Padded(second, 2), POINT, frac.value);
      if frac.value != [] {
        assert text[|text| - 1] == frac.value[|frac.value| - 1];
        assert frac.value[|frac.value| - 1] in frac.value;
      }
    }
  }

  lemma ClockReads(hour: nat, minute: nat, second: nat, frac: Option<Str>)
    requires hour < 24 && minute < 60 && second < 60 && (frac.Some? ==> Digits(frac.value))
    ensures ParseClock(TrimZ(ClockText(hour, minute, second, frac) + [ZED]))
              == Some(Clock(hour, minute, second, NanosOf(frac)))
  {
    hide ParseI64, Padded, Fields, SplitOnce, ParseFraction, FractionNanos;
    PaddedParses(hour, 2);
    PaddedParses(minute, 2);
    PaddedParses(second, 2);
    SecondsRead(second, frac);
    if frac.Some? {
      FractionReads(frac.value);
    }
    var text, seconds := ClockText(hour, minute, second, frac), SecondsText(second, frac);
    assert (text + [ZED])[..|text|] == text;
    assert text[|text| - 1] == seconds[|seconds| - 1];
    assert TrimZ(text + [ZED]) == text;
    ThreeFields(Padded(hour, 2), Padded(minute, 2), seconds, COLON);
  }

  /** Once the seconds of a date fit, so does everything computed before them; they are negative before 1970. */
  lemma ReadingFits(c: Civil, k: Clock)
    requires ValidDate(c) && 0 <= c.year < TWO63
    requires 0 <= k.hour < 24 && 0 <= k.minute < 60 && 0 <= k.second < 60
    ensures TotalSeconds(c, k) >= 0 <==> c.year >= 1970
    ensures DateFits(c) && SecondsFit(DaysFromCivil(c), k) <==> TotalSeconds(c, k) < TWO63
  {
    hide DaysFromCivil, YearStart, DayOfYear, Leap, DaysIn;
    EpochOn(c);
    if TotalSeconds(c, k) < TWO63 {
      var era, yoe, doy := CivilParts(c);
      FloorDivision(MarchYear(c), 400, era, yoe);
      YearStartBound(yoe);
    }
  }

  /**
   * A timestamp with any fraction, or none, is read field by field, up to the last second that 64 signed bits
   * hold; before 1970 there is no moment to read.
   */
  lemma TimestampReads(c: Civil, hour: nat, minute: nat, second: nat, frac: Option<Str>)
    requires ValidDate(c) && 0 <= c.year < TWO63
    requires hour < 24 && minute < 60 && second < 60 && (frac.Some? ==> Digits(frac.value))
    ensures var total := DaysFromCivil(c) * 86_400 + hour * 3_600 + minute * 60 + second;
            && (total >= 0 <==> c.year >= 1970)
            && ParseRfc3339(PrintedDate(c.year, c.month, c.day) + [TEE]
                            + (ClockText(hour, minute, second, frac) + [ZED]))
               == if total < 0 then NoMoment
                  else if total < TWO63 then Moment(Instant(total, NanosOf(frac)))
                  else Overflow
  {
    hide ParseDate, ParseClock, PrintedDate, ClockText, DaysFromCivil, SplitOnce, TrimZ, DateFits, SecondsFit, NanosOf;
    assert c.day <= 31;
    DateReads(c.year, c.month, c.day);
    ClockReads(hour, minute, second, frac);
    ReadingFits(c, Clock(hour, minute, second, NanosOf(frac)));
    SplitAt(PrintedDate(c.year, c.month, c.day), TEE, ClockText(hour, minute, second, frac) + [ZED]);
  }

  /** What the program prints has no fraction, or nine digits of one. */
  lemma PrintedReads(c: Civil, hour: nat, minute: nat, second: nat, nanos: nat)
    requires ValidDate(c) && 1970 <= c.year < TWO63
    requires hour < 24 && minute < 60 && second < 60 && nanos < 1_000_000_000
    ensures var total := DaysFromCivil(c) * 86_400 + hour * 3_600 + minute * 60 + second;
            && total >= 0
            && ParseRfc3339(Printed(c.year, c.month, c.day, hour, minute, second, nanos))
               == if total < TWO63 then Moment(Instant(total, nanos)) else Overflow
  {
    hide ParseRfc3339, PrintedDate, DaysFromCivil, Padded, FractionNanos;
    NanosRead(nanos);
    TimestampReads(c, hour, minute, second, if nanos == 0 then None else Some(Padded(nanos, 9)));
  }

  /** A fraction of at most nine digits prints as its digits, padded on the right. */
  lemma FractionKept(frac: Str)
    requires Digits(frac) && 0 < |frac| <= 9
    ensures Padded(FractionNanos(frac), 9) == frac + Zeroes(9 - |frac|)
  {
    hide Padded, Value;
    var text := frac + Zeroes(9 - |frac|);
    ZeroesValue(frac, 9 - |frac|);
    PaddedDigits(text);
  }

  /** A digit string is how its value prints at its length. */
  lemma {:induction false} PaddedDigits(s: Str)
    requires Digits(s)
    ensures Padded(Value(s), |s|) == s
    decreases |s|
  {
    if s != [] {
      var rest, last := s[..|s| - 1], s[|s| - 1];
      assert Digits(rest) && last in s;
      PaddedDigits(rest);
      LastDigit(Value(rest), last - ZERO);
      assert s == rest + [last];
    }
  }

  lemma LastDigit(n: nat, d: nat)
    requires d < 10
    ensures (10 * n + d) / 10 == n && (10 * n + d) % 10 == d
  {
  }

  lemma DayParts(secs: nat)
    ensures var rest := secs % 86_400;
            secs / 86_400 * 86_400 + rest / 3600 * 3600 + rest % 3600 / 60 * 60 + rest % 60 == secs
    ensures secs % 86_400 / 3600 < 24 && secs % 86_400 % 3600 / 60 < 60
  {
    var rest := secs % 86_400;
    assert rest % 60 == rest % 3600 % 60;
  }

  /** The year of any moment within the range of the program's seconds fits many times over. */
  lemma YearFits(secs: nat)
    requires secs < TWO63
    ensures DateOf(secs).year < TWO63
  {
    hide CivilFromDays, DaysFromCivil;
    var c := DateOf(secs);
    DaysRoundTrip(secs / 86_400);
    YearBelowDays(c);
  }

  lemma YearBelowDays(c: Civil)
    requires ValidDate(c) && c.year >= 1
    ensures c.year <= DaysFromCivil(c) + 719_468 + 1
  {
    hide DaysFromCivil, YearStart, DayOfYear;
    var era, yoe, doy := CivilParts(c);
    YearStartAtLeast(yoe);
  }

  lemma YearStartAtLeast(yoe: int)
    requires 0 <= yoe < 400
    ensures YearStart(yoe) >= yoe
  {
  }

  /** Printing and parsing a moment gives it back: seconds and nanoseconds, for the whole range. */
  lemma InstantRoundTrip(t: Instant)
    requires t.secs < TWO63 && t.nanos < 1_000_000_000
    ensures ParseRfc3339(FormatRfc3339(t)) == Moment(t)
  {
    hide ParseRfc3339, Printed, CivilFromDays, DaysFromCivil;
    var c := DateOf(t.secs);
    var rest := t.secs % 86_400;
    YearFits(t.secs);
    DayParts(t.secs);
    DaysRoundTrip(t.secs / 86_400);
    PrintedReads(c, rest / 3600, rest % 3600 / 60, rest % 60, t.nanos);
  }

  /**
   * A printed whole-second timestamp from 1970 on is reproduced exactly if and only if its seconds fit 64 signed bits;
   * past that the parser's arithmetic overflows.
   */
  lemma TextRoundTrip(c: Civil, hour: nat, minute: nat, second: nat)
    requires ValidDate(c) && 1970 <= c.year < TWO63 && hour < 24 && minute < 60 && second < 60
    ensures var text := Printed(c.year, c.month, c.day, hour, minute, second, 0);
            var read := ParseRfc3339(text);
            var total := DaysFromCivil(c) * 86_400 + hour * 3_600 + minute * 60 + second;
            && (read.Moment? && FormatRfc3339(read.at) == text <==> total < TWO63)
            && (read == Overflow <==> total >= TWO63)
  {
    hide ParseRfc3339, Printed, CivilFromDays, DaysFromCivil;
    PrintedReads(c, hour, minute, second, 0);
    EpochOn(c);
    CivilRoundTrip(c);
    SecondsSplit(DaysFromCivil(c), hour, minute, second);
  }

  /** Reading a timestamp with a fraction and printing it keeps every digit of it, padded to nine. */
  lemma FractionRoundTrip(c: Civil, hour: nat, minute: nat, second: nat, frac: Str)
    requires ValidDate(c) && 1970 <= c.year < TWO63 && hour < 24 && minute < 60 && second < 60
    requires DaysFromCivil(c) * 86_400 + hour * 3_600 + minute * 60 + second < TWO63
    requires Digits(frac) && 0 < |frac| <= 9 && FractionNanos(frac) > 0
    ensures var date := PrintedDate(c.year, c.month, c.day) + [TEE];
            var read := ParseRfc3339(date + (ClockText(hour, minute, second, Some(frac)) + [ZED]));
            && read.Moment?
            && FormatRfc3339(read.at)
               == date + (ClockText(hour, minute, second, Some(frac + Zeroes(9 - |frac|))) + [ZED])
  {
    hide ParseRfc3339, PrintedDate, CivilFromDays, DaysFromCivil, Padded, FractionNanos;
    TimestampReads(c, hour, minute, second, Some(frac));
    FractionKept(frac);
    EpochOn(c);
    CivilRoundTrip(c);
    SecondsSplit(DaysFromCivil(c), hour, minute, second);
  }

  /** The last second that can be read is 292277026596-12-04T15:30:07Z. */
  lemma LastSecond(c: Civil, hour: nat, minute: nat, second: nat)
    requires ValidDate(c) && hour < 24 && minute < 60 && second < 60
    ensures var last := Civil(292_277_026_596, 12, 4);
            DaysFromCivil(c) * 86_400 + hour * 3_600 + minute * 60 + second < TWO63
            <==> Earlier(c, last) || (c == last && hour * 3_600 + minute * 60 + second <= 55_807)
  {
    hide DaysIn, Earlier;
    var last := Civil(292_277_026_596, 12, 4);
    LastDay();
    hide DaysFromCivil;
    if Earlier(c, last) {
      DaysMonotone(c, last);
    } else if c != last {
      LaterOrEqual(c, last);
      DaysMonotone(last, c);
    }
  }

  lemma LastDay()
    ensures ValidDate(Civil(292_277_026_596, 12, 4))
    ensures DaysFromCivil(Civil(292_277_026_596, 12, 4)) * 86_400 + 55_807 == TWO63 - 1
  {
  }

  lemma LaterOrEqual(a: Civil, b: Civil)
    requires a != b && !Earlier(a, b)
    ensures Earlier(b, a)
  {
  }

  /** A valid timestamp that parsing cannot read: the first day of year 300000000000. */
  lemma FarYearOverflows()
    ensures ParseRfc3339(Printed(300_000_000_000, 1, 1, 0, 0, 0, 0)) == Overflow
  {
    hide ParseRfc3339, Printed, DaysFromCivil;
    var c := Civil(300_000_000_000, 1, 1);
    PrintedReads(c, 0, 0, 0, 0);
    LastSecond(c, 0, 0, 0);
  }

  lemma SecondsSplit(days: nat, hour: nat, minute: nat, second: nat)
    requires hour < 24 && minute < 60 && second < 60
    ensures var total := days * 86_400 + hour * 3_600 + minute * 60 + second;
            var rest := total % 86_400;
            total / 86_400 == days && rest / 3600 == hour && rest % 3600 / 60 == minute && rest % 60 == second
  {
    var rest := hour * 3_600 + minute * 60 + second;
    Quotient(days * 86_400 + rest, 86_400, days, rest);
    Quotient(rest, 3600, hour, minute * 60 + second);
    Quotient(minute * 60 + second, 60, minute, second);
    Quotient(rest, 60, hour * 60 + minute, second);
  }

  /** Every intermediate value of printing, and of reading back what was printed, stays within 64 signed bits. */
  lemma NoOverflow(t: Instant)
    requires t.secs < TWO63 && t.nanos < 1_000_000_000
    ensures var days := t.secs / 86_400;
            var z := days + 719_468;
            var era := z / 146_097;
            var doe := z - era * 146_097;
            var c := CivilFromDays(days);
            && FitsI64(z) && FitsI64(era * 146_097) && 0 <= doe <= 146_096
            && FitsI64(YearOfEra(doe)) && FitsI64(era * 400) && FitsI64(YearOfEra(doe) + era * 400) && FitsI64(c.year)
    ensures ParseRfc3339(FormatRfc3339(t)) != Overflow
  {
    hide CivilFromDays, DaysFromCivil, ParseRfc3339, FormatRfc3339;
    var days := t.secs / 86_400;
    DaysRoundTrip(days);
    var c := CivilFromDays(days);
    EpochOn(c);
    YearBelowDays(c);
    DoeBounded(days + 719_468);
    InstantRoundTrip(t);
  }

  lemma DoeBounded(z: nat)
    ensures var era := z / 146_097;
            var doe := z - era * 146_097;
            0 <= doe <= 146_096 && 0 <= YearOfEra(doe) < 400
  {
    var doe := z - z / 146_097 * 146_097;
    var yoe, d := YearExists(doe);
    YearFound(yoe, d);
  }
}
