/** Timestamps as text. Every table stores `datetime.isoformat()` strings and SQLite compares
    them as text; the microsecond part is left out when it is zero. */
module Iso {
  import opened Text

  datatype Instant = Instant(year: nat, month: nat, day: nat, hour: nat, minute: nat, second: nat, micro: nat)

  predicate Leap(y: nat) { y % 4 == 0 && (y % 100 != 0 || y % 400 == 0) }

  function DaysIn(y: nat, m: nat): (d: nat)
    ensures 28 <= d <= 31
  {
    if m == 2 then (if Leap(y) then 29 else 28)
    else if m == 4 || m == 6 || m == 9 || m == 11 then 30
    else 31
  }

  /** What `datetime` accepts: years 1 to 9999, UTC. */
  predicate Valid(i: Instant) {
    && 1 <= i.year <= 9999 && 1 <= i.month <= 12 && 1 <= i.day <= DaysIn(i.year, i.month)
    && i.hour < 24 && i.minute < 60 && i.second < 60 && i.micro < 1000000
  }

  // ---------- the time an instant denotes ----------

  function DaysBeforeMonth(y: nat, m: nat): nat
    requires m >= 1
  {
    if m == 1 then 0 else DaysBeforeMonth(y, m - 1) + DaysIn(y, m - 1)
  }

  function DaysBeforeYear(y: nat): nat
    requires y >= 1
  {
    if y == 1 then 0 else DaysBeforeYear(y - 1) + DaysBeforeMonth(y - 1, 13)
  }

  function Ordinal(i: Instant): nat
    requires Valid(i)
  {
    DaysBeforeYear(i.year) + DaysBeforeMonth(i.year, i.month) + i.day
  }

  /** Microseconds since the start of year 1. */
  function Micros(i: Instant): nat
    requires Valid(i)
  {
    (((Ordinal(i) * 24 + i.hour) * 60 + i.minute) * 60 + i.second) * 1000000 + i.micro
  }

  // ---------- the text an instant is stored as ----------

  /** Exactly `w` digits. */
  function Fixed(n: nat, w: nat): (s: string)
    ensures |s| == w && AllDigits(s)
  {
    if w == 0 then "" else Fixed(n / 10, w - 1) + [Digit(n % 10)]
  }

  function Fraction(micro: nat): string {
    if micro == 0 then "" else "." + Fixed(micro, 6)
  }

  function DateText(i: Instant): string {
    Fixed(i.year, 4) + ("-" + (Fixed(i.month, 2) + ("-" + Fixed(i.day, 2))))
  }

  function ClockText(i: Instant): string {
    Fixed(i.hour, 2) + (":" + (Fixed(i.minute, 2) + (":" + Fixed(i.second, 2))))
  }

  function IsoFormat(i: Instant): string {
    DateText(i) + ("T" + (ClockText(i) + (Fraction(i.micro) + "+00:00")))
  }

  // ---------- digits keep the order of numbers ----------

  function Pow10(w: nat): nat { if w == 0 then 1 else 10 * Pow10(w - 1) }

  lemma {:induction false} FixedOrder(n: nat, m: nat, w: nat)
    requires n < Pow10(w) && m < Pow10(w)
    ensures Less(Fixed(n, w), Fixed(m, w)) <==> n < m
    ensures Fixed(n, w) == Fixed(m, w) <==> n == m
  {
    if w > 0 {
      FixedOrder(n / 10, m / 10, w - 1);
      LessOfBlocks(Fixed(n / 10, w - 1), [Digit(n % 10)], Fixed(m / 10, w - 1), [Digit(m % 10)]);
      assert Fixed(n, w)[..w - 1] == Fixed(n / 10, w - 1) && Fixed(n, w)[w - 1] == Digit(n % 10);
      assert Fixed(m, w)[..w - 1] == Fixed(m / 10, w - 1) && Fixed(m, w)[w - 1] == Digit(m % 10);
    }
  }

  /** A fixed-width number followed by more text: numbers first, then the rest. */
  lemma FieldThenRest(n: nat, m: nat, w: nat, rest: string, rest': string)
    requires n < Pow10(w) && m < Pow10(w)
    ensures Less(Fixed(n, w) + rest, Fixed(m, w) + rest') <==> n < m || (n == m && Less(rest, rest'))
  {
    FixedOrder(n, m, w);
    LessOfBlocks(Fixed(n, w), rest, Fixed(m, w), rest');
  }

  lemma AfterMark(mark: string, rest: string, rest': string)
    requires |mark| == 1
    ensures Less(mark + rest, mark + rest') <==> Less(rest, rest')
  {
    LessTotal(mark, mark);
    LessOfBlocks(mark, rest, mark, rest');
  }

  predicate DateBefore(a: Instant, b: Instant) {
    a.year < b.year || (a.year == b.year && (a.month < b.month || (a.month == b.month && a.day < b.day)))
  }

  predicate SameDate(a: Instant, b: Instant) { a.year == b.year && a.month == b.month && a.day == b.day }

  predicate ClockBefore(a: Instant, b: Instant) {
    a.hour < b.hour || (a.hour == b.hour && (a.minute < b.minute || (a.minute == b.minute && a.second < b.second)))
  }

  predicate SameClock(a: Instant, b: Instant) { a.hour == b.hour && a.minute == b.minute && a.second == b.second }

  lemma TwoDigits()
    ensures Pow10(2) == 100 && Pow10(4) == 10000 && Pow10(6) == 1000000
  {
    assert Pow10(2) == 10 * Pow10(1);
    assert Pow10(4) == 10 * Pow10(3) && Pow10(3) == 10 * Pow10(2);
    assert Pow10(6) == 10 * Pow10(5) && Pow10(5) == 10 * Pow10(4);
  }

  lemma DateTextOrder(a: Instant, b: Instant)
    requires Valid(a) && Valid(b)
    ensures Less(DateText(a), DateText(b)) <==> DateBefore(a, b)
    ensures DateText(a) == DateText(b) <==> SameDate(a, b)
    ensures |DateText(a)| == |DateText(b)|
  {
    DateTextLess(a, b);
    DateTextLess(b, a);
    LessTotal(DateText(a), DateText(b));
  }

  lemma DateTextLess(a: Instant, b: Instant)
    requires Valid(a) && Valid(b)
    ensures Less(DateText(a), DateText(b)) <==> DateBefore(a, b)
  {
    TwoDigits();
    FixedOrder(a.day, b.day, 2);
    AfterMark("-", Fixed(a.day, 2), Fixed(b.day, 2));
    FieldThenRest(a.month, b.month, 2, "-" + Fixed(a.day, 2), "-" + Fixed(b.day, 2));
    var ra, rb := Fixed(a.month, 2) + ("-" + Fixed(a.day, 2)), Fixed(b.month, 2) + ("-" + Fixed(b.day, 2));
    AfterMark("-", ra, rb);
    FieldThenRest(a.year, b.year, 4, "-" + ra, "-" + rb);
  }

  lemma ClockTextOrder(a: Instant, b: Instant)
    requires Valid(a) && Valid(b)
    ensures Less(ClockText(a), ClockText(b)) <==> ClockBefore(a, b)
    ensures ClockText(a) == ClockText(b) <==> SameClock(a, b)
    ensures |ClockText(a)| == |ClockText(b)|
  {
    ClockTextLess(a, b);
    ClockTextLess(b, a);
    LessTotal(ClockText(a), ClockText(b));
  }

  lemma ClockTextLess(a: Instant, b: Instant)
    requires Valid(a) && Valid(b)
    ensures Less(ClockText(a), ClockText(b)) <==> ClockBefore(a, b)
  {
    TwoDigits();
    FixedOrder(a.second, b.second, 2);
    AfterMark(":", Fixed(a.second, 2), Fixed(b.second, 2));
    FieldThenRest(a.minute, b.minute, 2, ":" + Fixed(a.second, 2), ":" + Fixed(b.second, 2));
    var ra, rb := Fixed(a.minute, 2) + (":" + Fixed(a.second, 2)), Fixed(b.minute, 2) + (":" + Fixed(b.second, 2));
    AfterMark(":", ra, rb);
    FieldThenRest(a.hour, b.hour, 2, ":" + ra, ":" + rb);
  }

  /** The omitted fraction is harmless because '+' sorts before '.'. */
  lemma FractionOrder(m: nat, n: nat)
    requires m < 1000000 && n < 1000000
    ensures Less(Fraction(m) + "+00:00", Fraction(n) + "+00:00") <==> m < n
  {
    TwoDigits();
    LessTotal("+00:00", "+00:00");
    if m != 0 && n != 0 {
      FieldThenRest(m, n, 6, "+00:00", "+00:00");
      AfterMark(".", Fixed(m, 6) + "+00:00", Fixed(n, 6) + "+00:00");
      assert Fraction(m) + "+00:00" == "." + (Fixed(m, 6) + "+00:00");
      assert Fraction(n) + "+00:00" == "." + (Fixed(n, 6) + "+00:00");
    } else if m == 0 && n == 0 {
      assert Fraction(m) + "+00:00" == "+00:00" == Fraction(n) + "+00:00";
    } else {
      assert (Fraction(m) + "+00:00")[0] == if m == 0 then '+' else '.';
      assert (Fraction(n) + "+00:00")[0] == if n == 0 then '+' else '.';
    }
  }

  lemma IsoFieldOrder(a: Instant, b: Instant)
    requires Valid(a) && Valid(b)
    ensures Less(IsoFormat(a), IsoFormat(b)) <==>
            DateBefore(a, b) || (SameDate(a, b) && (ClockBefore(a, b) || (SameClock(a, b) && a.micro < b.micro)))
  {
    DateTextOrder(a, b);
    ClockTextOrder(a, b);
    FractionOrder(a.micro, b.micro);
    var fa, fb := Fraction(a.micro) + "+00:00", Fraction(b.micro) + "+00:00";
    LessOfBlocks(ClockText(a), fa, ClockText(b), fb);
    AfterMark("T", ClockText(a) + fa, ClockText(b) + fb);
    LessOfBlocks(DateText(a), "T" + (ClockText(a) + fa), DateText(b), "T" + (ClockText(b) + fb));
  }

  // ---------- the calendar keeps the order of dates ----------

  lemma {:induction false} MonthsAscend(y: nat, m: nat, m': nat)
    requires 1 <= m < m'
    ensures DaysBeforeMonth(y, m) + DaysIn(y, m) <= DaysBeforeMonth(y, m')
    decreases m'
  {
    if m + 1 < m' {
      MonthsAscend(y, m, m' - 1);
    }
  }

  lemma {:induction false} YearsAscend(y: nat, y': nat)
    requires 1 <= y < y'
    ensures DaysBeforeYear(y) + DaysBeforeMonth(y, 13) <= DaysBeforeYear(y')
    decreases y'
  {
    if y + 1 < y' {
      YearsAscend(y, y' - 1);
    }
  }

  lemma EarlierDateSmallerOrdinal(a: Instant, b: Instant)
    requires Valid(a) && Valid(b) && DateBefore(a, b)
    ensures Ordinal(a) < Ordinal(b)
  {
    if a.year < b.year {
      YearsAscend(a.year, b.year);
      MonthsAscend(a.year, a.month, 13);
    } else if a.month < b.month {
      MonthsAscend(a.year, a.month, b.month);
    }
  }

  lemma OrdinalOrder(a: Instant, b: Instant)
    requires Valid(a) && Valid(b)
    ensures Ordinal(a) < Ordinal(b) <==> DateBefore(a, b)
    ensures Ordinal(a) == Ordinal(b) <==> SameDate(a, b)
  {
    if DateBefore(a, b) { EarlierDateSmallerOrdinal(a, b); }
    if DateBefore(b, a) { EarlierDateSmallerOrdinal(b, a); }
  }

  lemma MixedRadix(p: nat, q: nat, r: nat, s: nat, base: nat)
    requires r < base && s < base
    ensures p * base + r < q * base + s <==> p < q || (p == q && r < s)
  {
    if p < q {
      assert (p + 1) * base <= q * base;
    } else if q < p {
      assert (q + 1) * base <= p * base;
    }
  }

  /** Comparing stored timestamps as text is comparing the times they denote. */
  lemma TextOrderIsTimeOrder(a: Instant, b: Instant)
    requires Valid(a) && Valid(b)
    ensures Less(IsoFormat(a), IsoFormat(b)) <==> Micros(a) < Micros(b)
    ensures IsoFormat(a) == IsoFormat(b) <==> Micros(a) == Micros(b)
  {
    TimeOrderByFields(a, b);
    TimeOrderByFields(b, a);
    IsoFieldOrder(a, b);
    IsoFieldOrder(b, a);
    LessTotal(IsoFormat(a), IsoFormat(b));
  }

  lemma TimeOrderByFields(a: Instant, b: Instant)
    requires Valid(a) && Valid(b)
    ensures Micros(a) < Micros(b) <==>
            DateBefore(a, b) || (SameDate(a, b) && (ClockBefore(a, b) || (SameClock(a, b) && a.micro < b.micro)))
  {
    OrdinalOrder(a, b);
    var ha, hb := Ordinal(a) * 24 + a.hour, Ordinal(b) * 24 + b.hour;
    MixedRadix(Ordinal(a), Ordinal(b), a.hour, b.hour, 24);
    MixedRadix(Ordinal(b), Ordinal(a), b.hour, a.hour, 24);
    MixedRadix(ha, hb, a.minute, b.minute, 60);
    MixedRadix(hb, ha, b.minute, a.minute, 60);
    var ma, mb := ha * 60 + a.minute, hb * 60 + b.minute;
    MixedRadix(ma, mb, a.second, b.second, 60);
    MixedRadix(mb, ma, b.second, a.second, 60);
    var sa, sb := ma * 60 + a.second, mb * 60 + b.second;
    MixedRadix(sa, sb, a.micro, b.micro, 1000000);
  }

  // ---------- what a text says ----------

  lemma {:induction false} FixedValue(n: nat, w: nat)
    requires n < Pow10(w)
    ensures ValueOf(Fixed(n, w)) == n
  {
    if w > 0 {
      FixedValue(n / 10, w - 1);
      assert Fixed(n, w)[..w - 1] == Fixed(n / 10, w - 1);
    }
  }

  /** `text` is the number in `w` digits. */
  predicate Spells(text: string, w: nat, n: nat) { |text| == w && AllDigits(text) && ValueOf(text) == n }

  lemma FixedSpells(n: nat, w: nat)
    requires n < Pow10(w)
    ensures Spells(Fixed(n, w), w, n)
  {
    FixedValue(n, w);
  }

  lemma PowersOfTen()
    ensures Pow10(2) == 100 && Pow10(4) == 10000 && Pow10(6) == 1000000
  {
    assert Pow10(1) == 10 && Pow10(3) == 1000 && Pow10(5) == 100000;
  }

  /** The stored text is year, month and day with hyphens, a T, hour, minute and second with colons, six digits
      of a fraction unless it is zero, and the offset. */
  lemma TextSays(i: Instant) returns (y: string, mo: string, d: string, h: string, mi: string, s: string, us: string)
    requires Valid(i)
    ensures IsoFormat(i) == (y + ("-" + (mo + ("-" + d)))) + ("T" + ((h + (":" + (mi + (":" + s)))) +
              ((if i.micro == 0 then "" else "." + us) + "+00:00")))
    ensures Spells(y, 4, i.year) && Spells(mo, 2, i.month) && Spells(d, 2, i.day)
    ensures Spells(h, 2, i.hour) && Spells(mi, 2, i.minute) && Spells(s, 2, i.second) && Spells(us, 6, i.micro)
  {
    PowersOfTen();
    y, mo, d := Fixed(i.year, 4), Fixed(i.month, 2), Fixed(i.day, 2);
    h, mi, s, us := Fixed(i.hour, 2), Fixed(i.minute, 2), Fixed(i.second, 2), Fixed(i.micro, 6);
    FixedSpells(i.year, 4);
    FixedSpells(i.month, 2);
    FixedSpells(i.day, 2);
    FixedSpells(i.hour, 2);
    FixedSpells(i.minute, 2);
    FixedSpells(i.second, 2);
    FixedSpells(i.micro, 6);
  }
}
