/** The timestamp strings the tables are sorted and compared by: writing, reading, and why string order is time order. */
module Timestamps {
  import opened Common

  // ---------- strings as the database compares them ----------

  predicate Less(a: string, b: string) {
    if b == "" then false
    else if a == "" then true
    else a[0] < b[0] || (a[0] == b[0] && Less(a[1..], b[1..]))
  }

  predicate Precedes(a: seq<nat>, b: seq<nat>) {
    if b == [] then false
    else if a == [] then true
    else a[0] < b[0] || (a[0] == b[0] && Precedes(a[1..], b[1..]))
  }

  /** Texts whose heads have one length are ordered by head, then by tail. */
  lemma {:induction false} LessConcat(a: string, b: string, x: string, y: string)
    requires |a| == |b|
    ensures Less(a + x, b + y) <==> Less(a, b) || (a == b && Less(x, y))
  {
    if a == "" {
      assert a + x == x && b + y == y;
    } else {
      LessConcat(a[1..], b[1..], x, y);
      assert (a + x)[1..] == a[1..] + x && (b + y)[1..] == b[1..] + y;
      assert a == [a[0]] + a[1..] && b == [b[0]] + b[1..];
    }
  }

  lemma {:induction false} NotLessItself(a: string)
    ensures !Less(a, a)
  {
    if a != "" { NotLessItself(a[1..]); }
  }

  // ---------- fixed-width decimals ----------

  function Pow10(w: nat): (p: nat)
    ensures p >= 1
  {
    if w == 0 then 1 else 10 * Pow10(w - 1)
  }

  function Decimal(w: nat, n: nat): (s: string)
    ensures |s| == w
  {
    if w == 0 then "" else Decimal(w - 1, n / 10) + [(n % 10) as char + '0']
  }

  function Number(s: string): Option<nat> {
    if s == "" then Some(0)
    else
      var last := s[|s| - 1];
      if !('0' <= last <= '9') then None
      else match Number(s[..|s| - 1])
        case None => None
        case Some(n) => Some(10 * n + (last - '0') as nat)
  }

  lemma {:induction false} NumberOfDecimal(w: nat, n: nat)
    requires n < Pow10(w)
    ensures Number(Decimal(w, n)) == Some(n)
  {
    if w > 0 {
      NumberOfDecimal(w - 1, n / 10);
      assert Decimal(w, n)[..w - 1] == Decimal(w - 1, n / 10);
    }
  }

  lemma {:induction false} DecimalOrder(w: nat, m: nat, n: nat)
    requires m < Pow10(w) && n < Pow10(w)
    ensures Less(Decimal(w, m), Decimal(w, n)) <==> m < n
    ensures Decimal(w, m) == Decimal(w, n) <==> m == n
  {
    if w > 0 {
      DecimalOrder(w - 1, m / 10, n / 10);
      LessConcat(Decimal(w - 1, m / 10), Decimal(w - 1, n / 10), [(m % 10) as char + '0'], [(n % 10) as char + '0']);
    }
    NumberOfDecimal(w, m);
    NumberOfDecimal(w, n);
  }

  // ---------- rows of fields ----------

  /** A field is written after its separator, in a fixed number of digits. */
  datatype Field = Field(separator: string, width: nat)

  const DATE_AND_TIME: seq<Field> :=
    [Field("", 4), Field("-", 2), Field("-", 2), Field("T", 2), Field(":", 2), Field(":", 2)]
  const FRACTION: seq<Field> := [Field(".", 6)]
  const OFFSET: seq<Field> := [Field("", 2), Field(":", 2)]

  predicate Fits(shape: seq<Field>, values: seq<nat>) {
    |shape| == |values| && forall i :: 0 <= i < |shape| ==> values[i] < Pow10(shape[i].width)
  }

  function Render(shape: seq<Field>, values: seq<nat>): string
    requires |shape| == |values|
  {
    if shape == [] then ""
    else (shape[0].separator + Decimal(shape[0].width, values[0])) + Render(shape[1..], values[1..])
  }

  /** The values of the fields, and the rest of the text. */
  function Scan(shape: seq<Field>, s: string): Option<(seq<nat>, string)> {
    if shape == [] then Some(([], s))
    else
      var sep := shape[0].separator;
      var end := |sep| + shape[0].width;
      if |s| < end || s[..|sep|] != sep then None
      else match (Number(s[|sep|..end]), Scan(shape[1..], s[end..]))
        case (Some(n), Some((rest, tail))) => Some(([n] + rest, tail))
        case _ => None
  }

  lemma ScanFirst(shape: seq<Field>, s: string, digits: string, rest: string, n: nat, values: seq<nat>, tail: string)
    requires shape != [] && |digits| == shape[0].width && s == shape[0].separator + digits + rest
    requires Number(digits) == Some(n) && Scan(shape[1..], rest) == Some((values, tail))
    ensures Scan(shape, s) == Some(([n] + values, tail))
  {
    var (a, b) := (|shape[0].separator|, |shape[0].separator| + |digits|);
    assert s[..a] == shape[0].separator && s[a..b] == digits && s[b..] == rest;
  }

  lemma {:induction false} ScanRender(shape: seq<Field>, values: seq<nat>, tail: string)
    requires Fits(shape, values)
    ensures Scan(shape, Render(shape, values) + tail) == Some((values, tail))
  {
    if shape == [] {
      assert Render(shape, values) + tail == tail && values == [];
    } else {
      var (digits, rest) := (Decimal(shape[0].width, values[0]), Render(shape[1..], values[1..]) + tail);
      NumberOfDecimal(shape[0].width, values[0]);
      ScanRender(shape[1..], values[1..], tail);
      assert Render(shape, values) + tail == shape[0].separator + digits + rest;
      ScanFirst(shape, Render(shape, values) + tail, digits, rest, values[0], values[1..], tail);
      assert [values[0]] + values[1..] == values;
    }
  }

  lemma LessInMiddle(head: string, a: string, b: string, x: string, y: string)
    requires |a| == |b|
    ensures Less(head + a + x, head + b + y) <==> Less(a, b) || (a == b && Less(x, y))
  {
    assert head + a + x == head + (a + x) && head + b + y == head + (b + y);
    LessConcat(head, head, a + x, b + y);
    NotLessItself(head);
    LessConcat(a, b, x, y);
  }

  lemma {:induction false} RenderOrder(shape: seq<Field>, a: seq<nat>, b: seq<nat>, x: string, y: string)
    requires Fits(shape, a) && Fits(shape, b)
    ensures Less(Render(shape, a) + x, Render(shape, b) + y) <==> Precedes(a, b) || (a == b && Less(x, y))
  {
    if shape == [] {
      assert a == b == [];
      assert Render(shape, a) + x == x && Render(shape, b) + y == y;
    } else {
      var (sep, w) := (shape[0].separator, shape[0].width);
      var (ra, rb) := (Render(shape[1..], a[1..]), Render(shape[1..], b[1..]));
      assert Render(shape, a) + x == sep + Decimal(w, a[0]) + (ra + x);
      assert Render(shape, b) + y == sep + Decimal(w, b[0]) + (rb + y);
      LessInMiddle(sep, Decimal(w, a[0]), Decimal(w, b[0]), ra + x, rb + y);
      DecimalOrder(w, a[0], b[0]);
      RenderOrder(shape[1..], a[1..], b[1..], x, y);
      assert a == [a[0]] + a[1..] && b == [b[0]] + b[1..];
    }
  }

  // ---------- the calendar ----------

  datatype DateTime = DateTime(year: nat, month: nat, day: nat, hour: nat, minute: nat, second: nat, micro: nat)

  predicate Leap(y: nat) { y % 4 == 0 && (y % 100 != 0 || y % 400 == 0) }

  function MonthLength(y: nat, m: nat): (d: nat)
    ensures 28 <= d <= 31
  {
    if m == 2 then (if Leap(y) then 29 else 28) else if m in {4, 6, 9, 11} then 30 else 31
  }

  predicate Valid(d: DateTime) {
    && 1 <= d.year <= 9999 && 1 <= d.month <= 12 && 1 <= d.day <= MonthLength(d.year, d.month)
    && d.hour < 24 && d.minute < 60 && d.second < 60 && d.micro < 1_000_000
  }

  function DaysBeforeYear(y: nat): nat
    requires y >= 1
  {
    if y == 1 then 0 else DaysBeforeYear(y - 1) + YearLength(y - 1)
  }

  function DaysBeforeMonth(y: nat, m: nat): nat
    requires m >= 1
  {
    if m == 1 then 0 else DaysBeforeMonth(y, m - 1) + MonthLength(y, m - 1)
  }

  function YearLength(y: nat): nat { if Leap(y) then 366 else 365 }

  function Days(d: DateTime): nat
    requires Valid(d)
  {
    DaysBeforeYear(d.year) + DaysBeforeMonth(d.year, d.month) + d.day - 1
  }

  /** Microseconds since the first instant of year 1. */
  function Instant(d: DateTime): Time
    requires Valid(d)
  {
    Days(d) * DAY + (d.hour * 3600 + d.minute * 60 + d.second) * SECOND + d.micro
  }

  const END: Time := 3_652_059 * DAY

  lemma CountMultiples(n: nat)
    ensures (n + 1) / 4 - n / 4 == if (n + 1) % 4 == 0 then 1 else 0
    ensures (n + 1) / 100 - n / 100 == if (n + 1) % 100 == 0 then 1 else 0
    ensures (n + 1) / 400 - n / 400 == if (n + 1) % 400 == 0 then 1 else 0
  {
  }

  /** The closed form for the days before a year. */
  lemma {:induction false} DaysBeforeYearClosed(y: nat)
    requires y >= 1
    ensures DaysBeforeYear(y) == 365 * (y - 1) + (y - 1) / 4 - (y - 1) / 100 + (y - 1) / 400
  {
    if y > 1 {
      DaysBeforeYearClosed(y - 1);
      CountMultiples(y - 2);
      LeapCount(y - 1);
    }
  }

  lemma Multiples(q: nat)
    ensures (4 * q) % 4 == 0 && (100 * q) % 100 == 0
  {
  }

  lemma LeapCount(y: nat)
    ensures (if y % 4 == 0 then 1 else 0) - (if y % 100 == 0 then 1 else 0) + (if y % 400 == 0 then 1 else 0)
            == YearLength(y) - 365
  {
    if y % 400 == 0 { Multiples(4 * (y / 400)); }
    if y % 100 == 0 { Multiples(25 * (y / 100)); }
  }

  lemma {:induction false} YearsGrow(y: nat, z: nat)
    requires 1 <= y <= z
    ensures DaysBeforeYear(y) <= DaysBeforeYear(z)
    ensures y < z ==> DaysBeforeYear(y) + YearLength(y) <= DaysBeforeYear(z)
    decreases z
  {
    if y < z {
      YearsGrow(y, z - 1);
    }
  }

  lemma MonthsMakeYear(y: nat)
    ensures DaysBeforeMonth(y, 12) + MonthLength(y, 12) == YearLength(y)
  {
    var extra := if Leap(y) then 1 else 0;
    assert DaysBeforeMonth(y, 2) == 31;
    assert DaysBeforeMonth(y, 3) == 59 + extra;
    assert DaysBeforeMonth(y, 5) == 120 + extra;
    assert DaysBeforeMonth(y, 7) == 181 + extra;
    assert DaysBeforeMonth(y, 9) == 243 + extra;
    assert DaysBeforeMonth(y, 11) == 304 + extra;
  }

  lemma {:induction false} MonthsGrow(y: nat, m: nat, n: nat)
    requires 1 <= m < n
    ensures DaysBeforeMonth(y, m) + MonthLength(y, m) <= DaysBeforeMonth(y, n)
    decreases n
  {
    if m < n - 1 { MonthsGrow(y, m, n - 1); }
  }

  lemma DayInYear(d: DateTime)
    requires Valid(d)
    ensures DaysBeforeYear(d.year) <= Days(d) < DaysBeforeYear(d.year) + YearLength(d.year)
  {
    MonthsMakeYear(d.year);
    if d.month < 12 { MonthsGrow(d.year, d.month, 12); }
  }

  function Fields(d: DateTime): seq<nat> { [d.year, d.month, d.day, d.hour, d.minute, d.second] }

  predicate Earlier(a: DateTime, b: DateTime) {
    Precedes(Fields(a), Fields(b)) || (Fields(a) == Fields(b) && a.micro < b.micro)
  }

  lemma EarlierDay(a: DateTime, b: DateTime)
    requires Valid(a) && Valid(b)
    requires a.year < b.year || (a.year == b.year && (a.month < b.month || (a.month == b.month && a.day < b.day)))
    ensures Days(a) < Days(b)
  {
    if a.year < b.year {
      DayInYear(a);
      DayInYear(b);
      YearsGrow(a.year, b.year);
    } else if a.month < b.month {
      MonthsGrow(a.year, a.month, b.month);
    }
  }

  lemma FieldOrder(a: DateTime, b: DateTime)
    ensures Precedes(Fields(a), Fields(b)) <==>
              a.year < b.year || (a.year == b.year && (a.month < b.month || (a.month == b.month && (a.day < b.day ||
              (a.day == b.day && (a.hour < b.hour || (a.hour == b.hour && (a.minute < b.minute ||
              (a.minute == b.minute && a.second < b.second)))))))))
  {
    var (x, y) := (Fields(a), Fields(b));
    assert x[1..][1..] == x[2..] && x[2..][1..] == x[3..] && x[3..][1..] == x[4..] && x[4..][1..] == x[5..];
    assert y[1..][1..] == y[2..] && y[2..][1..] == y[3..] && y[3..][1..] == y[4..] && y[4..][1..] == y[5..];
    assert x[5..][1..] == [] && y[5..][1..] == [];
    assert Precedes(x[5..], y[5..]) <==> a.second < b.second;
    assert Precedes(x[4..], y[4..]) <==> a.minute < b.minute || (a.minute == b.minute && Precedes(x[5..], y[5..]));
    assert Precedes(x[3..], y[3..]) <==> a.hour < b.hour || (a.hour == b.hour && Precedes(x[4..], y[4..]));
    assert Precedes(x[2..], y[2..]) <==> a.day < b.day || (a.day == b.day && Precedes(x[3..], y[3..]));
    assert Precedes(x[1..], y[1..]) <==> a.month < b.month || (a.month == b.month && Precedes(x[2..], y[2..]));
    assert Precedes(x, y) <==> a.year < b.year || (a.year == b.year && Precedes(x[1..], y[1..]));
  }

  lemma ClockOrder(a: DateTime, b: DateTime)
    requires Valid(a) && Valid(b)
    requires Days(a) < Days(b)
          || (Days(a) == Days(b) && (a.hour < b.hour || (a.hour == b.hour && (a.minute < b.minute ||
             (a.minute == b.minute && (a.second < b.second || (a.second == b.second && a.micro < b.micro)))))))
    ensures Instant(a) < Instant(b)
  {
    if Days(a) < Days(b) { assert Days(a) * DAY + DAY <= Days(b) * DAY; }
  }

  lemma EarlierInstant(a: DateTime, b: DateTime)
    requires Valid(a) && Valid(b) && Earlier(a, b)
    ensures Instant(a) < Instant(b)
  {
    FieldOrder(a, b);
    if a.year != b.year || a.month != b.month || a.day != b.day { EarlierDay(a, b); }
    ClockOrder(a, b);
  }

  /** The order of the fields is the order of instants. */
  lemma CalendarOrder(a: DateTime, b: DateTime)
    requires Valid(a) && Valid(b)
    ensures Earlier(a, b) <==> Instant(a) < Instant(b)
    ensures a == b <==> Instant(a) == Instant(b)
  {
    FieldOrder(a, b);
    FieldOrder(b, a);
    if Earlier(a, b) { EarlierInstant(a, b); }
    if Earlier(b, a) { EarlierInstant(b, a); }
  }

  // ---------- the calendar reading of an instant ----------

  function YearOf(y: nat, days: nat): (nat, nat)
    requires y >= 1
    decreases days
  {
    if days < YearLength(y) then (y, days) else YearOf(y + 1, days - YearLength(y))
  }

  function MonthOf(y: nat, m: nat, days: nat): (nat, nat)
    requires m >= 1
    decreases days
  {
    if days < MonthLength(y, m) then (m, days) else MonthOf(y, m + 1, days - MonthLength(y, m))
  }

  lemma {:induction false} YearOfDays(y: nat, days: nat)
    requires y >= 1
    ensures var (z, rest) := YearOf(y, days); z >= y && rest < YearLength(z) && DaysBeforeYear(y) + days == DaysBeforeYear(z) + rest
    decreases days
  {
    if days >= YearLength(y) {
      YearOfDays(y + 1, days - YearLength(y));
    }
  }

  lemma {:induction false} MonthOfDays(y: nat, m: nat, days: nat)
    requires 1 <= m <= 12 && DaysBeforeMonth(y, m) + days < YearLength(y)
    ensures var (n, rest) := MonthOf(y, m, days);
            m <= n <= 12 && 0 <= rest < MonthLength(y, n) && DaysBeforeMonth(y, m) + days == DaysBeforeMonth(y, n) + rest
    decreases days
  {
    if days >= MonthLength(y, m) {
      MonthsMakeYear(y);
      MonthOfDays(y, m + 1, days - MonthLength(y, m));
    }
  }

  function Civil(t: Time): DateTime
    requires 0 <= t < END
  {
    var (days, rest) := (t / DAY, t % DAY);
    var (year, dayOfYear) := YearOf(1, days);
    var (month, day) := MonthOf(year, 1, dayOfYear);
    var clock := rest / SECOND;
    DateTime(year, month, day + 1, clock / 3600, clock / 60 % 60, clock % 60, rest % SECOND)
  }

  lemma DateParts(days: nat)
    requires days < 3_652_059
    ensures var (year, dayOfYear) := YearOf(1, days);
            var (month, day) := MonthOf(year, 1, dayOfYear);
            && 1 <= year <= 9999 && 1 <= month <= 12 && 0 <= day < MonthLength(year, month)
            && DaysBeforeYear(year) + DaysBeforeMonth(year, month) + day == days
  {
    YearOfDays(1, days);
    var (year, dayOfYear) := YearOf(1, days);
    if year > 9999 {
      YearsGrow(10000, year);
      DaysBeforeYearClosed(10000);
    }
    MonthOfDays(year, 1, dayOfYear);
  }

  lemma DaySplit(t: Time)
    requires 0 <= t < END
    ensures 0 <= t / DAY < 3_652_059 && 0 <= t % DAY < DAY && t / DAY * DAY + t % DAY == t
  {
  }

  /** Every instant of years 1 to 9999 has one calendar reading. */
  lemma CivilInstant(t: Time)
    requires 0 <= t < END
    ensures Valid(Civil(t)) && Instant(Civil(t)) == t
  {
    DaySplit(t);
    DateParts(t / DAY);
    ClockParts(t % DAY);
    var d := Civil(t);
    assert Valid(d);
    assert Days(d) == t / DAY;
  }

  lemma ClockParts(rest: int)
    requires 0 <= rest < DAY
    ensures var clock := rest / SECOND;
            && 0 <= clock / 3600 < 24 && 0 <= clock / 60 % 60 < 60 && 0 <= clock % 60 < 60 && 0 <= rest % SECOND < 1_000_000
            && (clock / 3600 * 3600 + clock / 60 % 60 * 60 + clock % 60) * SECOND + rest % SECOND == rest
  {
    var clock := rest / SECOND;
    assert clock / 3600 == clock / 60 / 60;
  }

  lemma SameInstant(d: DateTime, t: Time)
    requires Valid(d) && t == Instant(d) && 0 <= t < END
    ensures Civil(t) == d
  {
    CivilInstant(t);
    CalendarOrder(d, Civil(t));
  }

  lemma DaysInRange(d: DateTime)
    requires Valid(d)
    ensures Days(d) < 3_652_059
  {
    DayInYear(d);
    YearsGrow(d.year, 10000);
    DaysBeforeYearClosed(10000);
  }

  lemma InstantInRange(d: DateTime)
    requires Valid(d)
    ensures 0 <= Instant(d) < END && Civil(Instant(d)) == d
  {
    DaysInRange(d);
    assert 0 <= Instant(d) - Days(d) * DAY < DAY;
    assert Days(d) * DAY <= 3_652_058 * DAY;
    SameInstant(d, Instant(d));
  }

  // ---------- to_timestamp ----------

  const UTC: string := "+00:00"

  /** isoformat() of a UTC datetime: a zero fraction is not written. */
  function IsoFormat(d: DateTime): string {
    Render(DATE_AND_TIME, Fields(d)) + ((if d.micro == 0 then "" else Render(FRACTION, [d.micro])) + UTC)
  }

  lemma RenderStep(shape: seq<Field>, values: seq<nat>, first: Field, n: nat)
    requires |shape| == |values|
    ensures Render([first] + shape, [n] + values) == first.separator + Decimal(first.width, n) + Render(shape, values)
  {
    assert ([first] + shape)[1..] == shape && ([n] + values)[1..] == values;
  }

  lemma RenderOne(field: Field, n: nat)
    ensures Render([field], [n]) == field.separator + Decimal(field.width, n)
  {
    RenderStep([], [], field, n);
    assert [field] == [field] + [] && [n] == [n] + [];
  }

  /** Two fields more, in front of what is rendered. */
  lemma RenderTwo(shape: seq<Field>, values: seq<nat>, a: Field, m: nat, b: Field, n: nat)
    requires |shape| == |values|
    ensures Render([a, b] + shape, [m, n] + values)
            == a.separator + Decimal(a.width, m) + b.separator + Decimal(b.width, n) + Render(shape, values)
  {
    assert [a, b] + shape == [a] + ([b] + shape) && [m, n] + values == [m] + ([n] + values);
    RenderStep([b] + shape, [n] + values, a, m);
    RenderStep(shape, values, b, n);
  }

  lemma Clock(d: DateTime)
    ensures Render([Field("-", 2), Field("T", 2), Field(":", 2), Field(":", 2)], [d.day, d.hour, d.minute, d.second])
            == "-" + Decimal(2, d.day) + "T" + Decimal(2, d.hour) + (":" + Decimal(2, d.minute) + ":" + Decimal(2, d.second))
  {
    var clock := [Field(":", 2), Field(":", 2)];
    RenderTwo([], [], Field(":", 2), d.minute, Field(":", 2), d.second);
    assert clock + [] == clock && [d.minute, d.second] + [] == [d.minute, d.second];
    RenderTwo(clock, [d.minute, d.second], Field("-", 2), d.day, Field("T", 2), d.hour);
    assert [Field("-", 2), Field("T", 2)] + clock == [Field("-", 2), Field("T", 2), Field(":", 2), Field(":", 2)];
    assert [d.day, d.hour] + [d.minute, d.second] == [d.day, d.hour, d.minute, d.second];
  }

  lemma YearAndMonth(d: DateTime, rest: string)
    requires rest == Render([Field("-", 2), Field("T", 2), Field(":", 2), Field(":", 2)], [d.day, d.hour, d.minute, d.second])
    ensures Render(DATE_AND_TIME, Fields(d)) == Decimal(4, d.year) + "-" + Decimal(2, d.month) + rest
  {
    var shape := [Field("-", 2), Field("T", 2), Field(":", 2), Field(":", 2)];
    RenderTwo(shape, [d.day, d.hour, d.minute, d.second], Field("", 4), d.year, Field("-", 2), d.month);
    assert [Field("", 4), Field("-", 2)] + shape == DATE_AND_TIME;
    assert [d.year, d.month] + [d.day, d.hour, d.minute, d.second] == Fields(d);
  }

  lemma Regroup(ym: string, dh: string, ms: string, fraction: string)
    ensures (ym + (dh + ms)) + (fraction + "+00:00") == ym + dh + ms + fraction + "+00:00"
  {
  }

  /** What a stored time looks like: ISO 8601 in UTC with the offset written out, the fraction only if there is one. */
  lemma Layout(d: DateTime)
    ensures
      IsoFormat(d) == (Decimal(4, d.year) + "-" + Decimal(2, d.month))
                      + ("-" + Decimal(2, d.day) + "T" + Decimal(2, d.hour))
                      + (":" + Decimal(2, d.minute) + ":" + Decimal(2, d.second))
                      + (if d.micro == 0 then "" else "." + Decimal(6, d.micro)) + "+00:00"
  {
    var (ym, dh) := (Decimal(4, d.year) + "-" + Decimal(2, d.month), "-" + Decimal(2, d.day) + "T" + Decimal(2, d.hour));
    var ms := ":" + Decimal(2, d.minute) + ":" + Decimal(2, d.second);
    Clock(d);
    YearAndMonth(d, dh + ms);
    RenderOne(Field(".", 6), d.micro);
    Regroup(ym, dh, ms, if d.micro == 0 then "" else "." + Decimal(6, d.micro));
  }

  datatype Result<T> = Ok(value: T) | ValueError | OverflowError

  /** A datetime without an offset counts as UTC; one that leaves years 1 to 9999 in UTC cannot be converted. */
  function ToTimestamp(d: DateTime, offset: Option<int>): Result<string>
    requires Valid(d)
  {
    var t := Instant(d) - if offset.Some? then offset.value else 0;
    if 0 <= t < END then Ok(Stamp(t)) else OverflowError
  }

  function Stamp(t: Time): string
    requires 0 <= t < END
  {
    IsoFormat(Civil(t))
  }

  lemma FieldsFit(d: DateTime)
    requires Valid(d)
    ensures Fits(DATE_AND_TIME, Fields(d)) && Fits(FRACTION, [d.micro])
  {
    assert Pow10(2) == 100 && Pow10(4) == 100 * Pow10(2) && Pow10(6) == 100 * Pow10(4);
  }

  function Tail(micro: nat): string { (if micro == 0 then "" else Render(FRACTION, [micro])) + UTC }

  /** '+' sorts before '.', so a missing fraction sorts first. */
  lemma TailOrder(m: nat, n: nat)
    requires m < 1_000_000 && n < 1_000_000
    ensures Less(Tail(m), Tail(n)) <==> m < n
  {
    NotLessItself(UTC);
    assert Pow10(2) == 100 && Pow10(4) == 100 * Pow10(2) && Pow10(6) == 100 * Pow10(4);
    if m > 0 && n > 0 {
      RenderOrder(FRACTION, [m], [n], UTC, UTC);
      assert Precedes([m], [n]) <==> m < n;
    } else {
      assert "" + UTC == UTC;
      if m > 0 { assert Render(FRACTION, [m])[0] == '.'; }
      if n > 0 { assert Render(FRACTION, [n])[0] == '.'; }
    }
  }

  lemma TextOrder(a: DateTime, b: DateTime)
    requires Valid(a) && Valid(b)
    ensures Less(IsoFormat(a), IsoFormat(b)) <==> Instant(a) < Instant(b)
  {
    FieldsFit(a);
    FieldsFit(b);
    RenderOrder(DATE_AND_TIME, Fields(a), Fields(b), Tail(a.micro), Tail(b.micro));
    TailOrder(a.micro, b.micro);
    CalendarOrder(a, b);
  }

  /** Main result: comparing two stored strings compares the instants, for every pair of instants. */
  lemma StringOrderIsTimeOrder(s: Time, t: Time)
    requires 0 <= s < END && 0 <= t < END
    ensures Less(Stamp(s), Stamp(t)) <==> s < t
    ensures Stamp(s) == Stamp(t) <==> s == t
  {
    CivilInstant(s);
    CivilInstant(t);
    TextOrder(Civil(s), Civil(t));
    TextOrder(Civil(t), Civil(s));
    NotLessItself(Stamp(s));
  }

  /** The same text ended in "Z". */
  function Zulu(d: DateTime): string {
    var s := IsoFormat(d);
    s[..|s| - |UTC|] + "Z"
  }

  /** The suffix matters: with "Z" a missing fraction would sort after every fraction of its own second. */
  lemma ZuluSuffixBreaksOrder(d: DateTime, micro: nat)
    requires Valid(d) && d.micro == 0 && 0 < micro < 1_000_000
    ensures Instant(d) < Instant(d.(micro := micro)) && !Less(Zulu(d), Zulu(d.(micro := micro)))
  {
    var late := d.(micro := micro);
    var head := Render(DATE_AND_TIME, Fields(d));
    var fraction := Render(FRACTION, [micro]);
    assert Zulu(d) == head + "Z";
    assert Zulu(late) == head + (fraction + "Z");
    LessConcat(head, head, "Z", fraction + "Z");
    NotLessItself(head);
    assert fraction[0] == '.';
  }

  // ---------- parse_timestamp ----------

  predicate Blank(c: char) { c in {' ', '\t', '\n', '\r', '\U{0b}', '\U{0c}'} }

  function StripLeft(s: string): string {
    if s != "" && Blank(s[0]) then StripLeft(s[1..]) else s
  }

  function StripRight(s: string): string {
    if s != "" && Blank(s[|s| - 1]) then StripRight(s[..|s| - 1]) else s
  }

  function Strip(s: string): string { StripRight(StripLeft(s)) }

  function Normalize(s: string): string {
    var n := Strip(s);
    if n != "" && n[|n| - 1] == 'Z' then n[..|n| - 1] + UTC else n
  }

  /** The offset at the end: absent, or a sign with hours and minutes. */
  function ScanOffset(s: string): Option<int> {
    if s == "" then Some(0)
    else if s[0] != '+' && s[0] != '-' then None
    else match Scan(OFFSET, s[1..])
      case Some((v, "")) =>
        if |v| == 2 && v[0] < 24 && v[1] < 60 then
          var size := (v[0] * 3600 + v[1] * 60) * SECOND;
          Some(if s[0] == '+' then size else -size)
        else None
      case _ => None
  }

  function ScanFraction(s: string): Option<(nat, string)> {
    if s == "" || s[0] != '.' then Some((0, s))
    else match Scan(FRACTION, s)
      case Some((v, tail)) => if |v| == 1 then Some((v[0], tail)) else None
      case None => None
  }

  /** Texts written YYYY-MM-DDTHH:MM:SS[.ffffff][+HH:MM]. */
  function ReadLayout(s: string): Option<(DateTime, int)> {
    match Scan(DATE_AND_TIME, s)
    case None => None
    case Some((v, tail)) =>
      match ScanFraction(tail)
      case None => None
      case Some((micro, end)) =>
        match ScanOffset(end)
        case None => None
        case Some(offset) =>
          if |v| != 6 then None
          else
            var d := DateTime(v[0], v[1], v[2], v[3], v[4], v[5], micro);
            if Valid(d) then Some((d, offset)) else None
  }

  /** What the host's fromisoformat makes of texts in its other layouts. */
  datatype Reader = Reader(other: string -> Option<(DateTime, int)>)

  function FromIso(reader: Reader, s: string): Option<(DateTime, int)> {
    match ReadLayout(s)
    case Some(read) => Some(read)
    case None => reader.other(s)
  }

  /** The instant of a datetime at an offset from UTC. */
  function Placed(d: DateTime, offset: int): Result<Time> {
    if !Valid(d) then ValueError
    else
      var t := Instant(d) - offset;
      if 0 <= t < END then Ok(t) else OverflowError
  }

  function ParseTimestamp(reader: Reader, value: string): Result<Time> {
    match FromIso(reader, Normalize(value))
    case None => ValueError
    case Some((d, offset)) => Placed(d, offset)
  }

  /** Only ValueError and TypeError are caught; None stands for a missing value. */
  function ParseTimestampOrNone(reader: Reader, value: Option<string>): Result<Option<Time>> {
    if value.None? || value.value == "" || Strip(value.value) == "0" then Ok(None)
    else match ParseTimestamp(reader, value.value)
      case Ok(t) => Ok(Some(t))
      case ValueError => Ok(None)
      case OverflowError => OverflowError
  }

  predicate AllBlank(s: string) { forall i :: 0 <= i < |s| ==> Blank(s[i]) }

  lemma {:induction false} StripLeftOf(pad: string, s: string)
    requires AllBlank(pad) && s != "" && !Blank(s[0])
    ensures StripLeft(pad + s) == s
  {
    if pad == "" {
      assert pad + s == s;
    } else {
      assert (pad + s)[1..] == pad[1..] + s;
      StripLeftOf(pad[1..], s);
    }
  }

  lemma {:induction false} StripRightOf(s: string, pad: string)
    requires AllBlank(pad) && s != "" && !Blank(s[|s| - 1])
    ensures StripRight(s + pad) == s
  {
    if pad == "" {
      assert s + pad == s;
    } else {
      var k := |pad| - 1;
      assert (s + pad)[..|s + pad| - 1] == s + pad[..k];
      StripRightOf(s, pad[..k]);
    }
  }

  lemma StripPadded(left: string, s: string, right: string)
    requires AllBlank(left) && AllBlank(right) && s != "" && !Blank(s[0]) && !Blank(s[|s| - 1])
    ensures Strip(left + s + right) == s
  {
    assert left + s + right == left + (s + right);
    StripLeftOf(left, s + right);
    StripRightOf(s, right);
  }

  /** A text from digit to digit is read as it is. */
  lemma NormalizeKeeps(s: string)
    requires s != "" && '0' <= s[0] <= '9' && '0' <= s[|s| - 1] <= '9'
    ensures Normalize(s) == s
  {
    StripPadded("", s, "");
    assert "" + s + "" == s;
  }

  lemma {:induction false} DecimalDigits(w: nat, n: nat, i: nat)
    requires i < w
    ensures '0' <= Decimal(w, n)[i] <= '9'
  {
    if i < w - 1 { DecimalDigits(w - 1, n / 10, i); }
  }

  lemma StartsWithDigit(d: DateTime)
    ensures IsoFormat(d) != "" && '0' <= IsoFormat(d)[0] <= '9'
  {
    var s := Render(DATE_AND_TIME, Fields(d));
    DecimalDigits(4, d.year, 0);
    assert s[0] == ("" + Decimal(4, d.year))[0];
  }

  /** A datetime written with an offset. */
  function IsoWithOffset(d: DateTime, sign: char, hours: nat, minutes: nat): string {
    Render(DATE_AND_TIME, Fields(d))
    + ((if d.micro == 0 then "" else Render(FRACTION, [d.micro])) + ([sign] + Render(OFFSET, [hours, minutes])))
  }

  function OffsetOf(sign: char, hours: nat, minutes: nat): int {
    var size := (hours * 3600 + minutes * 60) * SECOND;
    if sign == '+' then size else -size
  }

  lemma OffsetScanned(s: string, sign: char, rest: string, hours: nat, minutes: nat)
    requires sign in {'+', '-'} && hours < 24 && minutes < 60 && s == [sign] + rest && Scan(OFFSET, rest) == Some(([hours, minutes], ""))
    ensures ScanOffset(s) == Some(OffsetOf(sign, hours, minutes))
  {
    assert s[1..] == rest;
  }

  lemma OffsetRead(sign: char, hours: nat, minutes: nat)
    requires sign in {'+', '-'} && hours < 24 && minutes < 60
    ensures ScanOffset([sign] + Render(OFFSET, [hours, minutes])) == Some(OffsetOf(sign, hours, minutes))
  {
    assert Pow10(2) == 100;
    var s := Render(OFFSET, [hours, minutes]);
    ScanRender(OFFSET, [hours, minutes], "");
    assert s + "" == s;
    OffsetScanned([sign] + s, sign, s, hours, minutes);
  }

  lemma FractionRead(micro: nat, end: string)
    requires micro < 1_000_000 && end != "" && end[0] != '.'
    ensures ScanFraction((if micro == 0 then "" else Render(FRACTION, [micro])) + end) == Some((micro, end))
  {
    if micro == 0 {
      assert "" + end == end;
    } else {
      assert Pow10(2) == 100 && Pow10(4) == 100 * Pow10(2) && Pow10(6) == 100 * Pow10(4);
      ScanRender(FRACTION, [micro], end);
      assert Render(FRACTION, [micro])[0] == '.';
    }
  }

  lemma FromIsoFormat(d: DateTime, sign: char, hours: nat, minutes: nat)
    requires Valid(d) && sign in {'+', '-'} && hours < 24 && minutes < 60
    ensures ReadLayout(IsoWithOffset(d, sign, hours, minutes)) == Some((d, OffsetOf(sign, hours, minutes)))
  {
    var end := [sign] + Render(OFFSET, [hours, minutes]);
    FieldsFit(d);
    OffsetRead(sign, hours, minutes);
    FractionRead(d.micro, end);
    ScanRender(DATE_AND_TIME, Fields(d), (if d.micro == 0 then "" else Render(FRACTION, [d.micro])) + end);
  }

  lemma EndsWithDigit(sign: char, hours: nat, minutes: nat)
    ensures var s := Render(OFFSET, [hours, minutes]); s != "" && '0' <= s[|s| - 1] <= '9'
  {
    DecimalDigits(2, minutes, 1);
    var last := ":" + Decimal(2, minutes);
    assert Render(OFFSET[1..], [hours, minutes][1..]) == last + "";
  }

  lemma WithOffsetEnds(d: DateTime, sign: char, hours: nat, minutes: nat)
    ensures var s := IsoWithOffset(d, sign, hours, minutes); s != "" && '0' <= s[0] <= '9' && '0' <= s[|s| - 1] <= '9'
  {
    StartsWithDigit(d);
    EndsWithDigit(sign, hours, minutes);
    var s := IsoWithOffset(d, sign, hours, minutes);
    var end := Render(OFFSET, [hours, minutes]);
    assert s[0] == IsoFormat(d)[0];
    assert s[|s| - 1] == end[|end| - 1];
  }

  lemma ParseAs(reader: Reader, value: string, iso: string, d: DateTime, offset: int)
    requires Normalize(value) == iso && ReadLayout(iso) == Some((d, offset))
    ensures ParseTimestamp(reader, value) == Placed(d, offset)
  {
  }

  /** Main result: a text with an offset denotes the instant that much earlier or later, and an instant outside
   *  years 1 to 9999 is an overflow. */
  lemma OffsetsShift(reader: Reader, d: DateTime, sign: char, hours: nat, minutes: nat)
    requires Valid(d) && sign in {'+', '-'} && hours < 24 && minutes < 60
    ensures ParseTimestamp(reader, IsoWithOffset(d, sign, hours, minutes)) == Placed(d, OffsetOf(sign, hours, minutes))
  {
    var s := IsoWithOffset(d, sign, hours, minutes);
    WithOffsetEnds(d, sign, hours, minutes);
    NormalizeKeeps(s);
    FromIsoFormat(d, sign, hours, minutes);
    ParseAs(reader, s, s, d, OffsetOf(sign, hours, minutes));
  }

  lemma UtcOffset(d: DateTime)
    ensures IsoWithOffset(d, '+', 0, 0) == IsoFormat(d)
  {
    assert Decimal(2, 0) == "00";
    assert Render(OFFSET[1..], [0, 0][1..]) == ":00" + "";
    assert Render(OFFSET, [0, 0]) == "00" + ":00";
  }

  lemma ParseNormalized(reader: Reader, value: string, d: DateTime)
    requires Valid(d) && Normalize(value) == IsoFormat(d)
    ensures ParseTimestamp(reader, value) == Ok(Instant(d))
  {
    InstantInRange(d);
    FromIsoFormat(d, '+', 0, 0);
    UtcOffset(d);
    ParseAs(reader, value, IsoFormat(d), d, 0);
  }

  lemma ZuluNormalizes(d: DateTime, left: string, right: string)
    requires AllBlank(left) && AllBlank(right)
    ensures Normalize(left + Zulu(d) + right) == IsoFormat(d)
  {
    var (s, z) := (IsoFormat(d), Zulu(d));
    StartsWithDigit(d);
    assert s[|s| - 6..] == UTC;
    StripPadded(left, z, right);
    assert z[..|z| - 1] + UTC == s;
  }

  /** Main result: reading inverts writing, whatever blanks surround the text. */
  lemma RoundTrip(reader: Reader, d: DateTime, left: string, right: string)
    requires Valid(d) && AllBlank(left) && AllBlank(right)
    ensures ParseTimestamp(reader, left + IsoFormat(d) + right) == Ok(Instant(d))
  {
    var s := IsoFormat(d);
    WithOffsetEnds(d, '+', 0, 0);
    UtcOffset(d);
    StripPadded(left, s, right);
    ParseNormalized(reader, left + s + right, d);
  }

  /** ... and whether UTC is written "+00:00" or "Z". */
  lemma ZuluRoundTrip(reader: Reader, d: DateTime, left: string, right: string)
    requires Valid(d) && AllBlank(left) && AllBlank(right)
    ensures ParseTimestamp(reader, left + Zulu(d) + right) == Ok(Instant(d))
  {
    ZuluNormalizes(d, left, right);
    ParseNormalized(reader, left + Zulu(d) + right, d);
  }

  lemma StampReads(reader: Reader, t: Time)
    requires 0 <= t < END
    ensures ParseTimestamp(reader, Stamp(t)) == Ok(t)
  {
    CivilInstant(t);
    RoundTrip(reader, Civil(t), "", "");
    assert "" + Stamp(t) + "" == Stamp(t);
  }

  /** A datetime in any zone is written as the UTC calendar reading of its instant; out of range it is not written. */
  lemma WrittenInUtc(d: DateTime, offset: int)
    requires Valid(d)
    ensures ToTimestamp(d, Some(offset)).OverflowError? <==> !(0 <= Instant(d) - offset < END)
    ensures forall e :: Valid(e) && Instant(e) == Instant(d) - offset ==> ToTimestamp(d, Some(offset)) == Ok(IsoFormat(e))
  {
    forall e | Valid(e) && Instant(e) == Instant(d) - offset ensures ToTimestamp(d, Some(offset)) == Ok(IsoFormat(e)) {
      InstantInRange(e);
    }
  }

  /** A cursor the service handed out comes back as the instant it was made from, so `since` filters by that instant. */
  lemma CursorReads(reader: Reader, t: Time)
    requires 0 <= t < END
    ensures ParseTimestampOrNone(reader, Some(Stamp(t))) == Ok(Some(t))
  {
    var s := Stamp(t);
    StampReads(reader, t);
    StartsWithDigit(Civil(t));
    assert "" + s + "" == s;
    WithOffsetEnds(Civil(t), '+', 0, 0);
    UtcOffset(Civil(t));
    StripPadded("", s, "");
    assert |s| > 1;
  }

  /** Whatever text a caller sends, the stored comparison sees a canonical stamp: re-writing a parsed value keeps its instant. */
  lemma Canonical(reader: Reader, value: string)
    requires ParseTimestamp(reader, value).Ok?
    ensures 0 <= ParseTimestamp(reader, value).value < END
    ensures ParseTimestamp(reader, Stamp(ParseTimestamp(reader, value).value)) == ParseTimestamp(reader, value)
  {
    var t := ParseTimestamp(reader, value).value;
    CursorReads(reader, t);
  }

  lemma DaysOfMicros(days: nat, rest: int)
    requires 0 <= rest < DAY
    ensures days * DAY + rest < DAY ==> days == 0
    ensures days * DAY + rest >= END - DAY ==> days >= 3_652_058
  {
    if days < 3_652_058 { assert days * DAY <= 3_652_057 * DAY; }
  }

  lemma InstantDays(d: DateTime)
    requires Valid(d)
    ensures Instant(d) < DAY ==> Days(d) == 0
    ensures Instant(d) >= END - DAY ==> Days(d) >= 3_652_058
  {
    DaysOfMicros(Days(d), (d.hour * 3600 + d.minute * 60 + d.second) * SECOND + d.micro);
  }

  lemma FirstDay(d: DateTime)
    requires Valid(d) && Days(d) == 0
    ensures d.year == 1
  {
    DayInYear(d);
    YearsGrow(1, d.year);
  }

  lemma LastDay(d: DateTime)
    requires Valid(d) && Days(d) >= 3_652_058
    ensures d.year == 9999
  {
    DayInYear(d);
    DaysBeforeYearClosed(9999);
    if d.year < 9999 { YearsGrow(d.year, 9999); }
  }

  lemma OnlyAtTheEnds(d: DateTime, offset: int)
    requires Valid(d) && -DAY < offset < DAY && !(0 <= Instant(d) - offset < END)
    ensures (d.year == 1 && Instant(d) < DAY) || (d.year == 9999 && Instant(d) >= END - DAY)
  {
    InstantDays(d);
    if Instant(d) < DAY { FirstDay(d); } else { LastDay(d); }
  }

  /** The lenient parser promises None for every unusable text. It raises instead exactly for a date, in whatever layout,
   *  whose offset carries it out of years 1 to 9999; with an offset under a day, only on the first and the last day. */
  lemma LenientIff(reader: Reader, value: string)
    ensures ParseTimestampOrNone(reader, Some(value)) == OverflowError <==>
              && value != "" && Strip(value) != "0"
              && var iso := FromIso(reader, Normalize(value));
                 iso.Some? && Valid(iso.value.0) && !(0 <= Instant(iso.value.0) - iso.value.1 < END)
    ensures ParseTimestampOrNone(reader, Some(value)) == OverflowError ==>
              var (d, offset) := FromIso(reader, Normalize(value)).value;
              -DAY < offset < DAY ==> (d.year == 1 && Instant(d) < DAY) || (d.year == 9999 && Instant(d) >= END - DAY)
  {
    if ParseTimestampOrNone(reader, Some(value)) == OverflowError {
      var (d, offset) := FromIso(reader, Normalize(value)).value;
      if -DAY < offset < DAY { OnlyAtTheEnds(d, offset); }
    }
  }

  lemma PlainText(s: string)
    requires |s| > 1 && '0' <= s[0] <= '9' && '0' <= s[|s| - 1] <= '9'
    ensures Strip(s) == s
  {
    StripPadded("", s, "");
    assert "" + s + "" == s;
  }

  lemma LenientAs(reader: Reader, s: string)
    requires |s| > 1 && Strip(s) == s && ParseTimestamp(reader, s).OverflowError?
    ensures ParseTimestampOrNone(reader, Some(s)) == OverflowError
  {
  }

  /** That family is not empty: the first hours of year 1, written east of UTC. */
  lemma LenientCanFail(reader: Reader, d: DateTime, hours: nat, minutes: nat)
    requires Valid(d) && hours < 24 && minutes < 60 && Instant(d) < (hours * 3600 + minutes * 60) * SECOND
    ensures ParseTimestampOrNone(reader, Some(IsoWithOffset(d, '+', hours, minutes))) == OverflowError
  {
    var s := IsoWithOffset(d, '+', hours, minutes);
    assert |s| > 1;
    OffsetsShift(reader, d, '+', hours, minutes);
    WithOffsetEnds(d, '+', hours, minutes);
    PlainText(s);
    LenientAs(reader, s);
  }
}
