/**
 * Points in time as the database stores them (internal/store/store.go): RFC 3339 text in UTC, with
 * the fraction's trailing zeros removed (sections 5.1 and 5.6 of RFC 3339).
 *
 * SQL statements compare the texts, Go code compares the parsed times. The two orders are
 * proved to agree across different seconds, and the exact exceptions inside one second are given.
 */
module Timestamps {
  import opened Prelude
  import opened Text

  // ---- the calendar ----------------------------------------------------------------------

  predicate Leap(y: nat) { y % 4 == 0 && (y % 100 != 0 || y % 400 == 0) }

  function YearDays(y: nat): nat { if Leap(y) then 366 else 365 }

  function MonthDays(y: nat, m: nat): nat {
    if m == 2 then (if Leap(y) then 29 else 28)
    else if m == 4 || m == 6 || m == 9 || m == 11 then 30
    else 31
  }

  /** Days from the start of year 0 to the start of year y. */
  function DaysToYear(y: nat): nat { if y == 0 then 0 else DaysToYear(y - 1) + YearDays(y - 1) }

  /** The Gregorian calendar: a leap day every fourth year, but not in three of four centuries. */
  lemma {:induction false} GregorianYears(y: nat)
    ensures DaysToYear(y) == 365 * y + (y + 3) / 4 - (y + 99) / 100 + (y + 399) / 400
  {
    if y > 0 {
      GregorianYears(y - 1);
      LeapDays(y - 1);
      hide Leap;
    }
  }

  lemma LeapDays(x: nat)
    ensures (x + 4) / 4 - (x + 100) / 100 + (x + 400) / 400
         == (x + 3) / 4 - (x + 99) / 100 + (x + 399) / 400 + if Leap(x) then 1 else 0
  {
    Fourths(x);
    Hundredths(x);
    FourHundredths(x);
    Divides(x);
  }

  lemma Fourths(x: nat)
    ensures (x + 4) / 4 == (x + 3) / 4 + if x % 4 == 0 then 1 else 0
  {
  }

  lemma Hundredths(x: nat)
    ensures (x + 100) / 100 == (x + 99) / 100 + if x % 100 == 0 then 1 else 0
  {
  }

  lemma FourHundredths(x: nat)
    ensures (x + 400) / 400 == (x + 399) / 400 + if x % 400 == 0 then 1 else 0
  {
  }

  lemma Divides(x: nat)
    ensures x % 400 == 0 ==> x % 100 == 0
    ensures x % 100 == 0 ==> x % 4 == 0
  {
    Hundreds(4 * (x / 400));
    Fours(25 * (x / 100));
    assert x % 400 == 0 ==> x == 100 * (4 * (x / 400));
    assert x % 100 == 0 ==> x == 4 * (25 * (x / 100));
  }

  lemma Hundreds(q: nat)
    ensures (100 * q) % 100 == 0
  {
  }

  lemma Fours(q: nat)
    ensures (4 * q) % 4 == 0
  {
  }

  /** Days from the start of the year to the start of month m. */
  function DaysToMonth(y: nat, m: nat): nat { if m <= 1 then 0 else DaysToMonth(y, m - 1) + MonthDays(y, m - 1) }

  /** The twelve months fill the year. */
  lemma MonthsFill(y: nat)
    ensures DaysToMonth(y, 13) == YearDays(y)
    ensures DaysToMonth(y, 3) == if Leap(y) then 60 else 59
    ensures DaysToMonth(y, 6) == DaysToMonth(y, 3) + 92 && DaysToMonth(y, 9) == DaysToMonth(y, 3) + 184
  {
    assert DaysToMonth(y, 2) == DaysToMonth(y, 1) + MonthDays(y, 1) && DaysToMonth(y, 1) == 0;
    assert DaysToMonth(y, 3) == DaysToMonth(y, 2) + MonthDays(y, 2);
    ThreeMonths(y, 3);
    ThreeMonths(y, 6);
    ThreeMonths(y, 9);
    assert DaysToMonth(y, 13) == DaysToMonth(y, 12) + MonthDays(y, 12);
  }

  lemma ThreeMonths(y: nat, m: nat)
    requires m >= 1
    ensures DaysToMonth(y, m + 3) == DaysToMonth(y, m) + MonthDays(y, m) + MonthDays(y, m + 1) + MonthDays(y, m + 2)
  {
    hide MonthDays;
    assert DaysToMonth(y, m + 1) == DaysToMonth(y, m) + MonthDays(y, m);
    assert DaysToMonth(y, m + 2) == DaysToMonth(y, m + 1) + MonthDays(y, m + 1);
  }

  /** A time as `time.Time` shows it in UTC. */
  datatype Time = Time(year: nat, month: nat, day: nat, hour: nat, minute: nat, second: nat, nanos: nat) {

    predicate Valid() {
      && year <= 9999 && 1 <= month <= 12 && 1 <= day <= MonthDays(year, month)
      && hour < 24 && minute < 60 && second < 60 && nanos < 1_000_000_000
    }

    function Day(): int { DaysToYear(year) + DaysToMonth(year, month) + day - 1 }

    /** Seconds since the start of year 0. */
    function Seconds(): int { Day() * 86400 + hour * 3600 + minute * 60 + second }

    /** The instant itself. */
    function Nanos(): int { Seconds() * 1_000_000_000 + nanos }
  }

  lemma {:induction false} MonthOrder(y: nat, m: nat, n: nat)
    requires 1 <= m < n
    ensures DaysToMonth(y, m) + MonthDays(y, m) <= DaysToMonth(y, n)
    decreases n
  {
    if m < n - 1 { MonthOrder(y, m, n - 1); }
  }

  lemma {:induction false} YearOrder(y: nat, z: nat)
    requires y < z
    ensures DaysToYear(y) + YearDays(y) <= DaysToYear(z)
    decreases z
  {
    if y < z - 1 { YearOrder(y, z - 1); }
  }

  lemma YearLength(y: nat)
    ensures DaysToMonth(y, 12) + 31 == YearDays(y)
  {
    assert DaysToMonth(y, 2) == 31;
    assert DaysToMonth(y, 3) == 31 + MonthDays(y, 2);
    assert DaysToMonth(y, 4) == DaysToMonth(y, 3) + 31;
    assert DaysToMonth(y, 5) == DaysToMonth(y, 4) + 30;
    assert DaysToMonth(y, 6) == DaysToMonth(y, 5) + 31;
    assert DaysToMonth(y, 7) == DaysToMonth(y, 6) + 30;
    assert DaysToMonth(y, 8) == DaysToMonth(y, 7) + 31;
    assert DaysToMonth(y, 9) == DaysToMonth(y, 8) + 31;
    assert DaysToMonth(y, 10) == DaysToMonth(y, 9) + 30;
    assert DaysToMonth(y, 11) == DaysToMonth(y, 10) + 31;
    assert DaysToMonth(y, 12) == DaysToMonth(y, 11) + 30;
  }

  /** The first field in which two times differ, down to the second, decides. */
  predicate Earlier(a: Time, b: Time) {
    || a.year < b.year
    || (a.year == b.year && (
      || a.month < b.month
      || (a.month == b.month && (
        || a.day < b.day
        || (a.day == b.day && (
          || a.hour < b.hour
          || (a.hour == b.hour && (
            || a.minute < b.minute
            || (a.minute == b.minute && a.second < b.second)))))))))
  }

  predicate SameSecond(a: Time, b: Time) {
    a.year == b.year && a.month == b.month && a.day == b.day && a.hour == b.hour && a.minute == b.minute
        && a.second == b.second
  }

  lemma DayOrder(a: Time, b: Time)
    requires a.Valid() && b.Valid()
    requires a.year < b.year || (a.year == b.year && (a.month < b.month || (a.month == b.month && a.day < b.day)))
    ensures a.Day() < b.Day()
  {
    if a.year < b.year {
      YearOrder(a.year, b.year);
      YearLength(a.year);
      if a.month < 12 { MonthOrder(a.year, a.month, 12); }
    } else if a.month < b.month {
      MonthOrder(a.year, a.month, b.month);
    }
  }

  /** Comparing field by field is comparing the instants. */
  lemma FieldsOrderTime(a: Time, b: Time)
    requires a.Valid() && b.Valid()
    ensures Earlier(a, b) <==> a.Seconds() < b.Seconds()
    ensures SameSecond(a, b) <==> a.Seconds() == b.Seconds()
  {
    if Earlier(a, b) { EarlierIsLess(a, b); }
    if Earlier(b, a) { EarlierIsLess(b, a); }
  }

  lemma EarlierIsLess(a: Time, b: Time)
    requires a.Valid() && b.Valid() && Earlier(a, b)
    ensures a.Seconds() < b.Seconds()
  {
    hide DaysToMonth, DaysToYear;
    if a.year != b.year || a.month != b.month || a.day != b.day { DayOrder(a, b); }
  }

  // ---- digits ----------------------------------------------------------------------------

  function Pow10(w: nat): nat { if w == 0 then 1 else 10 * Pow10(w - 1) }

  function Digit(d: nat): char
    requires d < 10
  {
    '0' + d as char
  }

  /** n in exactly w digits. */
  function Digits(n: nat, w: nat): (s: string)
    ensures |s| == w && forall i :: 0 <= i < w ==> IsDigit(s[i])
  {
    if w == 0 then "" else Digits(n / 10, w - 1) + [Digit(n % 10)]
  }

  lemma {:induction false} ValueOfDigits(n: nat, w: nat)
    requires n < Pow10(w)
    ensures Decimal(Digits(n, w)) == Some(n)
  {
    if w > 0 {
      ValueOfDigits(n / 10, w - 1);
      var s := Digits(n, w);
      assert s[..w - 1] == Digits(n / 10, w - 1) && s[w - 1] == Digit(n % 10);
      assert DigitValue(Digit(n % 10)) == n % 10;
    }
  }

  /** Digit strings of one length are ordered like the numbers. */
  lemma {:induction false} DigitsOrder(a: nat, b: nat, w: nat)
    requires a < b < Pow10(w)
    ensures StrLess(Digits(a, w), Digits(b, w))
  {
    if w > 0 {
      var p, q := Digits(a / 10, w - 1), Digits(b / 10, w - 1);
      if a / 10 < b / 10 { DigitsOrder(a / 10, b / 10, w - 1); }
      OrderByPrefix(p, q, [Digit(a % 10)], [Digit(b % 10)]);
      assert a / 10 == b / 10 ==> a % 10 < b % 10;
    }
  }

  // ---- printing --------------------------------------------------------------------------

  function TrimZeros(s: string): (r: string)
    ensures r <= s && (r != "" ==> r[|r| - 1] != '0')
    ensures forall i :: |r| <= i < |s| ==> s[i] == '0'
  {
    if s != "" && s[|s| - 1] == '0' then TrimZeros(s[..|s| - 1]) else s
  }

  /** The fraction's digits without trailing zeros; empty for a whole second. */
  function Fraction(nanos: nat): string { TrimZeros(Digits(nanos, 9)) }

  /** What follows the seconds. */
  function Tail(nanos: nat): string {
    if nanos == 0 then "Z" else "." + Fraction(nanos) + "Z"
  }

  /** `ts`: the layout RFC3339Nano in UTC. */
  function Stamp(t: Time): string {
    Digits(t.year, 4) + ("-" + (Digits(t.month, 2) + ("-" + (Digits(t.day, 2) + ("T"
    + (Digits(t.hour, 2) + (":" + (Digits(t.minute, 2) + (":" + (Digits(t.second, 2) + Tail(t.nanos)))))))))))
  }

  // ---- the order of the texts ------------------------------------------------------------

  lemma FieldOrder(a: nat, b: nat, w: nat, x: string, y: string)
    requires a < Pow10(w) && b < Pow10(w)
    ensures a < b ==> StrLess(Digits(a, w) + x, Digits(b, w) + y)
    ensures a > b ==> !StrLe(Digits(a, w) + x, Digits(b, w) + y)
    ensures a == b ==> (StrLe(Digits(a, w) + x, Digits(b, w) + y) <==> StrLe(x, y))
    ensures a == b ==> (Digits(a, w) + x == Digits(b, w) + y <==> x == y)
  {
    hide Digits, StrLe;
    var p, q := Digits(a, w), Digits(b, w);
    if a < b { DigitsOrder(a, b, w); }
    if b < a { DigitsOrder(b, a, w); }
    StrLeOrder(p, q);
    OrderByPrefix(p, q, x, y);
  }

  lemma MarkOrder(c: string, x: string, y: string)
    requires |c| == 1
    ensures StrLe(c + x, c + y) <==> StrLe(x, y)
    ensures c + x == c + y <==> x == y
  {
    OrderByPrefix(c, c, x, y);
  }

  lemma Widths()
    ensures Pow10(4) == 10000 && Pow10(2) == 100 && Pow10(9) == 1_000_000_000
  {
    assert Pow10(5) == 100000;
    assert Pow10(7) == 10000000;
  }

  /** Across seconds the texts are ordered by the fields; within one, by the tails. */
  lemma StampOrder(a: Time, b: Time)
    requires a.Valid() && b.Valid()
    ensures Earlier(a, b) ==> StrLess(Stamp(a), Stamp(b))
    ensures Earlier(b, a) ==> !StrLe(Stamp(a), Stamp(b))
    ensures SameSecond(a, b) ==> (StrLe(Stamp(a), Stamp(b)) <==> StrLe(Tail(a.nanos), Tail(b.nanos)))
  {
    hide Digits, StrLe, Tail, Pow10;
    Widths();
    var sa, sb := Digits(a.second, 2) + Tail(a.nanos), Digits(b.second, 2) + Tail(b.nanos);
    FieldOrder(a.second, b.second, 2, Tail(a.nanos), Tail(b.nanos));
    MarkOrder(":", sa, sb);
    var ma, mb := Digits(a.minute, 2) + (":" + sa), Digits(b.minute, 2) + (":" + sb);
    FieldOrder(a.minute, b.minute, 2, ":" + sa, ":" + sb);
    MarkOrder(":", ma, mb);
    var ha, hb := Digits(a.hour, 2) + (":" + ma), Digits(b.hour, 2) + (":" + mb);
    FieldOrder(a.hour, b.hour, 2, ":" + ma, ":" + mb);
    MarkOrder("T", ha, hb);
    var da, db := Digits(a.day, 2) + ("T" + ha), Digits(b.day, 2) + ("T" + hb);
    FieldOrder(a.day, b.day, 2, "T" + ha, "T" + hb);
    MarkOrder("-", da, db);
    var oa, ob := Digits(a.month, 2) + ("-" + da), Digits(b.month, 2) + ("-" + db);
    FieldOrder(a.month, b.month, 2, "-" + da, "-" + db);
    MarkOrder("-", oa, ob);
    FieldOrder(a.year, b.year, 4, "-" + oa, "-" + ob);
  }

  predicate AllDigits(s: string) { forall i :: 0 <= i < |s| ==> IsDigit(s[i]) }
  predicate AllZero(s: string) { forall i :: 0 <= i < |s| ==> s[i] == '0' }

  lemma {:induction false} ZerosLeast(x: string, z: string)
    requires AllDigits(x) && AllZero(z) && |x| == |z|
    ensures StrLe(z, x)
  {
    if z != "" { ZerosLeast(x[1..], z[1..]); }
  }

  /** Of two fractions, the smaller comes first as text unless it is a prefix of the other. */
  lemma {:induction false} FractionOrder(f: string, y: string, g: string, z: string)
    requires AllDigits(f) && AllDigits(g) && AllZero(y) && AllZero(z) && |f + y| == |g + z|
    requires StrLess(f + y, g + z)
    ensures StrLe(f + "Z", g + "Z") <==> !(f <= g)
  {
    if f == "" {
      assert f + y == y && f + "Z" == "Z";
      assert g == "" ==> g + z == z && y == z;
      assert g != "" ==> (g + "Z")[0] == g[0];
    } else if g == "" {
      assert g + z == z;
      ZerosLeast(f + y, z);
      StrLeOrder(f + y, z);
      assert false;
    } else {
      assert (f + y)[1..] == f[1..] + y && (g + z)[1..] == g[1..] + z;
      assert (f + "Z")[1..] == f[1..] + "Z" && (g + "Z")[1..] == g[1..] + "Z";
      assert f == [f[0]] + f[1..] && g == [g[0]] + g[1..];
      assert f + y == [f[0]] + (f[1..] + y) && g + z == [g[0]] + (g[1..] + z);
      if f[0] == g[0] { FractionOrder(f[1..], y, g[1..], z); }
    }
  }

  lemma TailOrder(a: nat, b: nat)
    requires a < b < 1_000_000_000
    ensures StrLe(Tail(a), Tail(b)) <==> !(Fraction(a) <= Fraction(b))
  {
    hide Digits, Pow10;
    Widths();
    var da, db := Digits(a, 9), Digits(b, 9);
    var f, g := Fraction(a), Fraction(b);
    var y, z := da[|f|..], db[|g|..];
    DigitsOrder(a, b, 9);
    assert f + y == da && g + z == db;
    FractionOrder(f, y, g, z);
    assert "." + g + "Z" == "." + (g + "Z");
    if a == 0 {
      ZeroFraction();
    } else {
      assert "." + f + "Z" == "." + (f + "Z");
      MarkOrder(".", f + "Z", g + "Z");
    }
  }

  lemma ZeroFraction()
    ensures Fraction(0) == ""
  {
    ZeroDigits(9);
  }

  lemma {:induction false} ZeroDigits(w: nat)
    ensures AllZero(Digits(0, w))
  {
    if w > 0 { ZeroDigits(w - 1); }
  }

  /**
   * MAIN: of two different instants the earlier has the smaller text, except exactly when both lie
   * in one second and its trimmed fraction is a prefix of the later one's.
   */
  lemma TextOrder(a: Time, b: Time)
    requires a.Valid() && b.Valid() && a.Nanos() < b.Nanos()
    ensures StrLe(Stamp(a), Stamp(b)) <==> !(a.Seconds() == b.Seconds() && Fraction(a.nanos) <= Fraction(b.nanos))
  {
    hide StrLe, Tail, Fraction, Stamp;
    FieldsOrderTime(a, b);
    StampOrder(a, b);
    if a.Seconds() == b.Seconds() { TailOrder(a.nanos, b.nanos); }
  }

  // ---- parsing ---------------------------------------------------------------------------

  /** A number of exactly w digits at the head of s, and the rest. */
  function ReadNumber(s: string, w: nat): Option<(nat, string)> {
    if |s| < w then None
    else
      var v :- Decimal(s[..w]);
      Some((v, s[w..]))
  }

  function Skip(s: string, c: char): Option<string> {
    if s != "" && s[0] == c then Some(s[1..]) else None
  }

  function DigitRun(s: string): (n: nat)
    ensures n <= |s| && AllDigits(s[..n]) && (n < |s| ==> !IsDigit(s[n]))
  {
    if s == "" || !IsDigit(s[0]) then 0
    else
      var n := DigitRun(s[1..]);
      assert s[..n + 1] == [s[0]] + s[1..][..n];
      n + 1
  }

  function Zeros(n: nat): (s: string)
    ensures |s| == n && AllZero(s)
  {
    if n == 0 then "" else "0" + Zeros(n - 1)
  }

  /** The optional fraction and the final zone letter; digits past the ninth are dropped. */
  function ReadTail(s: string): Option<nat> {
    if s == "Z" then Some(0)
    else if s != "" && (s[0] == '.' || s[0] == ',') then
      var n := DigitRun(s[1..]);
      if n == 0 || s[1 + n..] != "Z" then None
      else
        var digits := s[1..1 + n];
        Decimal(if n <= 9 then digits + Zeros(9 - n) else digits[..9])
    else None
  }

  /** `time.Parse` with the layout RFC3339Nano, for texts in UTC; None is its error. */
  function Parse(s: string): Option<Time> {
    var (year, s1) :- ReadNumber(s, 4);
    var s2 :- Skip(s1, '-');
    var (month, s3) :- ReadNumber(s2, 2);
    var s4 :- Skip(s3, '-');
    var (day, s5) :- ReadNumber(s4, 2);
    var s6 :- Skip(s5, 'T');
    var (hour, s7) :- ReadNumber(s6, 2);
    var s8 :- Skip(s7, ':');
    var (minute, s9) :- ReadNumber(s8, 2);
    var s10 :- Skip(s9, ':');
    var (second, s11) :- ReadNumber(s10, 2);
    var nanos :- ReadTail(s11);
    var t := Time(year, month, day, hour, minute, second, nanos);
    if t.Valid() then Some(t) else None
  }

  lemma NumberReads(n: nat, w: nat, x: string)
    requires n < Pow10(w)
    ensures ReadNumber(Digits(n, w) + x, w) == Some((n, x))
  {
    hide Digits, Decimal;
    ValueOfDigits(n, w);
    assert (Digits(n, w) + x)[..w] == Digits(n, w) && (Digits(n, w) + x)[w..] == x;
  }

  lemma MarkReads(c: char, x: string)
    ensures Skip([c] + x, c) == Some(x)
  {
  }

  lemma {:induction false} DigitRunIs(f: string, x: string)
    requires AllDigits(f) && (x == "" || !IsDigit(x[0]))
    ensures DigitRun(f + x) == |f|
  {
    if f == "" {
      assert f + x == x;
    } else {
      assert (f + x)[1..] == f[1..] + x;
      DigitRunIs(f[1..], x);
    }
  }

  lemma ZerosAre(s: string)
    requires AllZero(s)
    ensures s == Zeros(|s|)
  {
  }

  lemma TailReads(nanos: nat)
    requires nanos < 1_000_000_000
    ensures ReadTail(Tail(nanos)) == Some(nanos)
  {
    hide Digits, Decimal, Pow10, Zeros;
    Widths();
    ValueOfDigits(nanos, 9);
    if nanos > 0 {
      var d, f := Digits(nanos, 9), Fraction(nanos);
      var s := "." + f + "Z";
      assert s[1..] == f + "Z";
      DigitRunIs(f, "Z");
      assert s[1..1 + |f|] == f && s[1 + |f|..] == "Z";
      assert d == f + d[|f|..];
      ZerosAre(d[|f|..]);
      NonZeroFraction(nanos);
    }
  }

  lemma NonZeroFraction(nanos: nat)
    requires 0 < nanos < 1_000_000_000
    ensures Fraction(nanos) != ""
  {
    hide Digits, StrLe;
    Widths();
    ZeroDigits(9);
    DigitsOrder(0, nanos, 9);
    ZerosAre(Digits(0, 9));
    if AllZero(Digits(nanos, 9)) { ZerosAre(Digits(nanos, 9)); }
  }

  /** MAIN: a stored time is read back to the nanosecond, whatever the length of its fraction. */
  lemma StampRoundTrip(t: Time)
    requires t.Valid()
    ensures Parse(Stamp(t)) == Some(t)
  {
    hide Digits, ReadNumber, Skip, Tail, ReadTail, Pow10;
    Widths();
    TailReads(t.nanos);
    var s10 := Digits(t.second, 2) + Tail(t.nanos);
    NumberReads(t.second, 2, Tail(t.nanos));
    MarkReads(':', s10);
    var s8 := Digits(t.minute, 2) + (":" + s10);
    NumberReads(t.minute, 2, ":" + s10);
    MarkReads(':', s8);
    var s6 := Digits(t.hour, 2) + (":" + s8);
    NumberReads(t.hour, 2, ":" + s8);
    MarkReads('T', s6);
    var s4 := Digits(t.day, 2) + ("T" + s6);
    NumberReads(t.day, 2, "T" + s6);
    MarkReads('-', s4);
    var s2 := Digits(t.month, 2) + ("-" + s4);
    NumberReads(t.month, 2, "-" + s4);
    MarkReads('-', s2);
    NumberReads(t.year, 4, "-" + s2);
  }

  // ---- comparisons in SQL and in Go ------------------------------------------------------

  /** `expires_at <= now` in SQL (PurgeExpiredSessions); `expires_at > now` (UseInvite) is its negation. */
  predicate SqlExpired(expires: Time, now: Time) { StrLe(Stamp(expires), Stamp(now)) }

  /** `!expires.After(now)` in Go (GetSession, Invite.Expired). */
  predicate GoExpired(expires: Time, now: Time) { expires.Nanos() <= now.Nanos() }

  lemma NanosInjective(a: Time, b: Time)
    requires a.Valid() && b.Valid() && a.Nanos() == b.Nanos()
    ensures a == b
  {
    hide Time.Seconds;
    FieldsOrderTime(a, b);
  }

  /** a is earlier than b in the same second, and its fraction is a prefix of b's: its text is the larger one. */
  predicate Reversed(a: Time, b: Time) {
    a.Nanos() < b.Nanos() && a.Seconds() == b.Seconds() && Fraction(a.nanos) <= Fraction(b.nanos)
  }

  /** MAIN: the SQL test says expired exactly at or after expiry, but for the two reversed cases. */
  lemma SqlExpiredExactly(expires: Time, now: Time)
    requires expires.Valid() && now.Valid()
    ensures SqlExpired(expires, now) <==> (GoExpired(expires, now) && !Reversed(expires, now)) || Reversed(now, expires)
  {
    hide StrLe, Stamp, Fraction, Time.Seconds;
    StrLeOrder(Stamp(expires), Stamp(now));
    if expires.Nanos() < now.Nanos() {
      TextOrder(expires, now);
    } else if now.Nanos() < expires.Nanos() {
      TextOrder(now, expires);
      if Stamp(expires) == Stamp(now) { StampInjective(expires, now); }
    } else {
      NanosInjective(expires, now);
    }
  }

  /** So the two expiry tests disagree exactly inside one second, when one fraction is a prefix of the other. */
  lemma ExpiryTests(expires: Time, now: Time)
    requires expires.Valid() && now.Valid()
    ensures SqlExpired(expires, now) == GoExpired(expires, now)
       <==> !(expires != now && expires.Seconds() == now.Seconds()
              && (Fraction(expires.nanos) <= Fraction(now.nanos) || Fraction(now.nanos) <= Fraction(expires.nanos)))
  {
    hide SqlExpired, Fraction, Time.Seconds;
    SqlExpiredExactly(expires, now);
    if expires.Nanos() == now.Nanos() {
      NanosInjective(expires, now);
    } else if expires.Seconds() == now.Seconds() {
      if expires.nanos < now.nanos { PrefixOrders(expires.nanos, now.nanos); }
      else { PrefixOrders(now.nanos, expires.nanos); }
    }
  }

  lemma StampInjective(a: Time, b: Time)
    requires a.Valid() && b.Valid() && Stamp(a) == Stamp(b)
    ensures a == b
  {
    hide Parse, Stamp;
    StampRoundTrip(a);
    StampRoundTrip(b);
  }

  /** A larger fraction is never a prefix of a smaller one. */
  lemma PrefixOrders(a: nat, b: nat)
    requires a < b < 1_000_000_000
    ensures !(Fraction(b) <= Fraction(a))
  {
    hide Digits, StrLe, Pow10, TrimZeros;
    Widths();
    var da, db := Digits(a, 9), Digits(b, 9);
    var f, g := Fraction(a), Fraction(b);
    DigitsOrder(a, b, 9);
    StrLeOrder(da, db);
    if g <= f {
      var x, z := da[|g|..], db[|g|..];
      assert da == g + x && db == g + z;
      OrderByPrefix(g, g, z, x);
      ZerosLeast(x, z);
    }
  }

  /** So a statement that compares texts is wrong by less than one second, both ways. */
  lemma SqlExpiryWithinASecond(expires: Time, now: Time)
    requires expires.Valid() && now.Valid()
    ensures SqlExpired(expires, now) ==> expires.Nanos() < now.Nanos() + 1_000_000_000
    ensures !SqlExpired(expires, now) ==> now.Nanos() < expires.Nanos() + 1_000_000_000
  {
    hide StrLe, Stamp;
    FieldsOrderTime(expires, now);
    FieldsOrderTime(now, expires);
    StampOrder(expires, now);
  }

  /** A concrete disagreement: half a second before its expiry the text test already calls it expired. */
  lemma ExpiryDisagreement()
    ensures var e := Time(2024, 1, 1, 0, 0, 5, 500_000_000);
            var n := Time(2024, 1, 1, 0, 0, 5, 0);
            e.Valid() && n.Valid() && SqlExpired(e, n) && !GoExpired(e, n)
  {
    var e := Time(2024, 1, 1, 0, 0, 5, 500_000_000);
    var n := Time(2024, 1, 1, 0, 0, 5, 0);
    ZeroFraction();
    hide StrLe, Stamp, DaysToYear, DaysToMonth, Fraction;
    TextOrder(n, e);
    StrLeOrder(Stamp(e), Stamp(n));
  }
}
