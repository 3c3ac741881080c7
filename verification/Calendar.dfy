/** The proleptic Gregorian calendar, days counted from 1970-01-01, and the way JavaScript builds dates. */
module Calendar {
  import opened Prelude
  import opened Text

  datatype Date = Date(year: int, month: int, day: int)

  predicate IsLeap(year: int) {
    year % 4 == 0 && (year % 100 != 0 || year % 400 == 0)
  }

  function DaysInMonth(year: int, month: int): (n: int)
    requires 1 <= month <= 12
    ensures 28 <= n <= 31
  {
    if month == 2 then (if IsLeap(year) then 29 else 28)
    else if month == 4 || month == 6 || month == 9 || month == 11 then 30
    else 31
  }

  predicate ValidDate(d: Date) {
    1 <= d.month <= 12 && 1 <= d.day <= DaysInMonth(d.year, d.month)
  }

  /** The day after, read off a calendar. */
  function Tomorrow(d: Date): Date
    requires ValidDate(d)
  {
    if d.day < DaysInMonth(d.year, d.month) then d.(day := d.day + 1)
    else if d.month < 12 then Date(d.year, d.month + 1, 1)
    else Date(d.year + 1, 1, 1)
  }

  function YearDays(year: int): int {
    if IsLeap(year) then 366 else 365
  }

  /** The day number of January 1st, counted year by year from 1970. */
  function YearStart(year: int): int
    decreases if year >= 1970 then year - 1970 else 1970 - year
  {
    if year == 1970 then 0
    else if year > 1970 then YearStart(year - 1) + YearDays(year - 1)
    else YearStart(year + 1) - YearDays(year)
  }

  function DaysBefore(year: int, month: int): int
    requires 1 <= month <= 13
    decreases month
  {
    if month == 1 then 0 else DaysBefore(year, month - 1) + DaysInMonth(year, month - 1)
  }

  function DayNumber(d: Date): int
    requires 1 <= d.month <= 12
  {
    YearStart(d.year) + DaysBefore(d.year, d.month) + d.day - 1
  }

  lemma YearLength(year: int)
    ensures YearStart(year + 1) == YearStart(year) + YearDays(year)
    ensures DaysBefore(year, 13) == YearDays(year)
  {
    MonthStarts(year);
  }

  /** The closed form that JavaScript's date arithmetic is specified by. */
  function YearFormula(year: int): int {
    365 * (year - 1970) + (year - 1969) / 4 - (year - 1901) / 100 + (year - 1601) / 400
  }

  lemma {:induction false} YearStartIsTheFormula(year: int)
    ensures YearStart(year) == YearFormula(year)
    decreases if year >= 1970 then year - 1970 else 1970 - year
  {
    if year > 1970 {
      YearStartIsTheFormula(year - 1);
      FormulaStep(year - 1);
    } else if year < 1970 {
      YearStartIsTheFormula(year + 1);
      FormulaStep(year);
    }
  }

  lemma FormulaStep(year: int)
    ensures YearFormula(year + 1) == YearFormula(year) + YearDays(year)
  {
    FourthYears(year);
    HundredthYears(year);
    FourHundredthYears(year);
  }

  lemma FourthYears(year: int)
    ensures (year - 1968) / 4 == (year - 1969) / 4 + (if year % 4 == 0 then 1 else 0)
  {
  }

  lemma HundredthYears(year: int)
    ensures (year - 1900) / 100 == (year - 1901) / 100 + (if year % 100 == 0 then 1 else 0)
    ensures year % 100 == 0 ==> year % 4 == 0
  {
  }

  lemma FourHundredthYears(year: int)
    ensures (year - 1600) / 400 == (year - 1601) / 400 + (if year % 400 == 0 then 1 else 0)
    ensures year % 400 == 0 ==> year % 100 == 0
  {
  }

  lemma MonthStarts(year: int)
    ensures var f := if IsLeap(year) then 29 else 28;
            && DaysBefore(year, 1) == 0 && DaysBefore(year, 2) == 31 && DaysBefore(year, 3) == 31 + f
            && DaysBefore(year, 4) == 62 + f && DaysBefore(year, 5) == 92 + f && DaysBefore(year, 6) == 123 + f
            && DaysBefore(year, 7) == 153 + f && DaysBefore(year, 8) == 184 + f && DaysBefore(year, 9) == 215 + f
            && DaysBefore(year, 10) == 245 + f && DaysBefore(year, 11) == 276 + f && DaysBefore(year, 12) == 306 + f
            && DaysBefore(year, 13) == 337 + f
  {
    assert DaysBefore(year, 3) == DaysBefore(year, 2) + DaysInMonth(year, 2);
    assert DaysBefore(year, 5) == DaysBefore(year, 4) + 30;
    assert DaysBefore(year, 7) == DaysBefore(year, 6) + 30;
    assert DaysBefore(year, 9) == DaysBefore(year, 8) + 31;
    assert DaysBefore(year, 11) == DaysBefore(year, 10) + 31;
    assert DaysBefore(year, 13) == DaysBefore(year, 12) + 31;
  }

  /** The day number counts days: it is 0 on 1970-01-01 and grows by one from each date to the next. */
  lemma DayNumberCountsDays(d: Date)
    requires ValidDate(d)
    ensures DayNumber(Date(1970, 1, 1)) == 0
    ensures ValidDate(Tomorrow(d)) && DayNumber(Tomorrow(d)) == DayNumber(d) + 1
  {
    YearLength(d.year);
    if d.day == DaysInMonth(d.year, d.month) {
      assert DaysBefore(d.year, d.month + 1) == DaysBefore(d.year, d.month) + d.day;
    }
  }

  /** The year of day `n`, searched upwards or downwards from a year known to be no later or later. */
  function YearUp(n: int, guess: int): (year: int)
    requires YearStart(guess) <= n
    ensures YearStart(year) <= n < YearStart(year + 1)
    decreases n - YearStart(guess)
  {
    YearLength(guess);
    if n < YearStart(guess + 1) then guess else YearUp(n, guess + 1)
  }

  function YearDown(n: int, guess: int): (year: int)
    requires n < YearStart(guess + 1)
    ensures YearStart(year) <= n < YearStart(year + 1)
    decreases YearStart(guess + 1) - n
  {
    YearLength(guess);
    if YearStart(guess) <= n then guess else YearDown(n, guess - 1)
  }

  function MonthFrom(year: int, offset: int, guess: int): (month: int)
    requires 1 <= guess <= 12 && DaysBefore(year, guess) <= offset < DaysBefore(year, 13)
    ensures 1 <= month <= 12 && DaysBefore(year, month) <= offset < DaysBefore(year, month + 1)
    decreases 12 - guess
  {
    if guess == 12 || offset < DaysBefore(year, guess + 1) then guess else MonthFrom(year, offset, guess + 1)
  }

  function YearOf(n: int): (year: int)
    ensures YearStart(year) <= n < YearStart(year + 1)
  {
    if n >= 0 then YearUp(n, 1970) else YearDown(n, 1969)
  }

  /** The date of an offset into a year. */
  function DateInYear(year: int, offset: int): (d: Date)
    requires 0 <= offset < DaysBefore(year, 13)
    ensures ValidDate(d) && d.year == year && DaysBefore(year, d.month) + d.day - 1 == offset
  {
    var month := MonthFrom(year, offset, 1);
    Date(year, month, offset - DaysBefore(year, month) + 1)
  }

  /** The date of a day number. */
  function DateOf(n: int): (d: Date)
    ensures ValidDate(d) && DayNumber(d) == n
  {
    var year := YearOf(n);
    YearLength(year);
    DateInYear(year, n - YearStart(year))
  }

  predicate Earlier(a: Date, b: Date) {
    || a.year < b.year
    || (a.year == b.year && a.month < b.month)
    || (a.year == b.year && a.month == b.month && a.day < b.day)
  }

  lemma {:induction false} YearsGrow(a: int, b: int)
    requires a <= b
    ensures YearStart(a) + 365 * (b - a) <= YearStart(b)
    decreases b - a
  {
    if a < b {
      YearsGrow(a, b - 1);
      YearLength(b - 1);
    }
  }

  lemma {:induction false} MonthsGrow(year: int, a: int, b: int)
    requires 1 <= a < b <= 13
    ensures DaysBefore(year, a) + DaysInMonth(year, a) <= DaysBefore(year, b)
    decreases b
  {
    if a < b - 1 {
      MonthsGrow(year, a, b - 1);
    }
  }

  /** Day numbers order dates as year, month and day do. */
  lemma DayNumberOrder(a: Date, b: Date)
    requires ValidDate(a) && ValidDate(b)
    ensures DayNumber(a) < DayNumber(b) <==> Earlier(a, b)
    ensures DayNumber(a) == DayNumber(b) <==> a == b
  {
    if Earlier(a, b) {
      EarlierIsLess(a, b);
    } else if Earlier(b, a) {
      EarlierIsLess(b, a);
    }
  }

  lemma EarlierIsLess(a: Date, b: Date)
    requires ValidDate(a) && ValidDate(b) && Earlier(a, b)
    ensures DayNumber(a) < DayNumber(b)
  {
    if a.year < b.year {
      YearsGrow(a.year + 1, b.year);
      YearLength(a.year);
      MonthsGrow(a.year, a.month, 13);
      StartsAreNonnegative(b.year, b.month);
    } else if a.month < b.month {
      MonthsGrow(a.year, a.month, b.month);
    }
  }

  lemma StartsAreNonnegative(year: int, month: int)
    requires 1 <= month <= 13
    ensures DaysBefore(year, month) >= 0
  {
    if month > 1 {
      StartsAreNonnegative(year, month - 1);
    }
  }

  /** Every valid date is the date of its day number. */
  lemma DateOfInverts(d: Date)
    requires ValidDate(d)
    ensures DateOf(DayNumber(d)) == d
  {
    DayNumberOrder(DateOf(DayNumber(d)), d);
  }

  /** 0 is Sunday; 1970-01-01 was a Thursday. */
  function Weekday(n: int): (w: int)
    ensures 0 <= w < 7
  {
    (n + 4) % 7
  }

  /** The weekdays go round: a Thursday on 1970-01-01, a Saturday on 2000-01-01, and Sunday after every Saturday. */
  lemma WeekdaysGoRound(n: int)
    ensures Weekday(DayNumber(Date(1970, 1, 1))) == 4 && Weekday(DayNumber(Date(2000, 1, 1))) == 6
    ensures Weekday(n + 1) == if Weekday(n) == 6 then 0 else Weekday(n) + 1
  {
    YearStartIsTheFormula(2000);
    assert YearFormula(2000) == 10957;
    assert DayNumber(Date(2000, 1, 1)) == 10957;
  }

  // ---------------------------------------------------------------- text

  /** YYYY-MM-DD, the year padded to four digits. */
  function Iso(d: Date): string
    requires 0 <= d.year <= 9999 && 1 <= d.month <= 12 && 1 <= d.day <= 31
  {
    assert Power10(4) == 10000 && Power10(2) == 100 by { Powers(); }
    Padded(d.year, 4) + "-" + Padded(d.month, 2) + "-" + Padded(d.day, 2)
  }

  lemma Powers()
    ensures Power10(0) == 1 && Power10(1) == 10 && Power10(2) == 100 && Power10(3) == 1000 && Power10(4) == 10000
  {
    assert Power10(3) == 10 * Power10(2);
  }

  /** Ten characters: the year, the month and the day in decimal, with dashes between. */
  lemma IsoReadsBack(d: Date)
    requires ValidDate(d) && 0 <= d.year <= 9999
    ensures var s := Iso(d);
            && |s| == 10 && s[4] == '-' && s[7] == '-'
            && Denoted(s[..4]) == d.year && Denoted(s[5..7]) == d.month && Denoted(s[8..]) == d.day
  {
    Powers();
    var y, m, n := Padded(d.year, 4), Padded(d.month, 2), Padded(d.day, 2);
    PaddedDenotes(d.year, 4);
    PaddedDenotes(d.month, 2);
    PaddedDenotes(d.day, 2);
    ThreeBlocks(y, m, n);
  }

  lemma ThreeBlocks(y: string, m: string, n: string)
    requires |m| == 2
    ensures var s, k := y + "-" + m + "-" + n, |y|;
            && |s| == k + 4 + |n| && s[k] == '-' && s[k + 3] == '-'
            && s[..k] == y && s[k + 1..k + 3] == m && s[k + 4..] == n
  {
  }

  /** For four-digit years, the order of the text is the order of the days. */
  lemma IsoOrder(a: Date, b: Date)
    requires ValidDate(a) && ValidDate(b) && 0 <= a.year <= 9999 && 0 <= b.year <= 9999
    ensures Less(Iso(a), Iso(b)) <==> DayNumber(a) < DayNumber(b)
    ensures Iso(a) == Iso(b) <==> a == b
  {
    Powers();
    DayNumberOrder(a, b);
    IsoLess(a, b);
    IsoLess(b, a);
    LessIsTotal(Iso(a), Iso(b));
  }

  lemma IsoLess(a: Date, b: Date)
    requires ValidDate(a) && ValidDate(b) && 0 <= a.year <= 9999 && 0 <= b.year <= 9999
    ensures Less(Iso(a), Iso(b)) <==> Earlier(a, b)
  {
    Powers();
    PaddedOrder(a.year, b.year, 4);
    PaddedOrder(a.month, b.month, 2);
    PaddedOrder(a.day, b.day, 2);
    LessByThreeBlocks(Padded(a.year, 4), Padded(b.year, 4), Padded(a.month, 2), Padded(b.month, 2), Padded(a.day, 2), Padded(b.day, 2));
  }

  lemma LessByThreeBlocks(p: string, q: string, r: string, s: string, x: string, y: string)
    requires |p| == |q| && |r| == |s|
    ensures Less(p + "-" + r + "-" + x, q + "-" + s + "-" + y) <==>
              Less(p, q) || (p == q && Less(r, s)) || (p == q && r == s && Less(x, y))
  {
    assert p + "-" + r + "-" + x == p + ("-" + (r + ("-" + x)));
    assert q + "-" + s + "-" + y == q + ("-" + (s + ("-" + y)));
    LessByBlocks(p, q, "-" + (r + ("-" + x)), "-" + (s + ("-" + y)));
    LessByBlocks("-", "-", r + ("-" + x), s + ("-" + y));
    LessByBlocks(r, s, "-" + x, "-" + y);
    LessByBlocks("-", "-", x, y);
    LessIsIrreflexive("-");
  }

  // ---------------------------------------------------------------- JavaScript dates

  /** The year `Date.UTC` takes a year argument for: 0 to 99 mean 1900 to 1999. */
  function JsYear(year: int): int {
    if 0 <= year <= 99 then 1900 + year else year
  }

  /** `Date.UTC` with a zero-based month; months and days overflow into their neighbours. */
  function DateUtc(year: int, month: int, day: int): int {
    if 0 <= month <= 11 then DayNumber(Date(JsYear(year), month + 1, 1)) + day - 1
    else DayNumber(Date(JsYear(year) + month / 12, month % 12 + 1, 1)) + day - 1
  }

  /** A year as JavaScript writes it: not padded. */
  function YearText(year: int): string {
    if year < 0 then "-" + Decimal(-year) else Decimal(year)
  }

  /** `toUTCDateString`. */
  function UtcDateString(d: Date): string
    requires 1 <= d.month <= 12 && 1 <= d.day <= 31
  {
    assert Power10(2) == 100 by { Powers(); }
    YearText(d.year) + "-" + Padded(d.month, 2) + "-" + Padded(d.day, 2)
  }

  /** The browser's text: the year without padding, then month and day of two digits each. */
  lemma BrowserTextReadsBack(d: Date)
    requires ValidDate(d) && d.year >= 0
    ensures var s := UtcDateString(d);
            var k := |s| - 6;
            && k >= 1 && s[k] == '-' && s[k + 3] == '-' && (s[0] == '0' ==> k == 1)
            && Denoted(s[..k]) == d.year && Denoted(s[k + 1..k + 3]) == d.month && Denoted(s[k + 4..]) == d.day
  {
    Powers();
    var s, y, m, n := UtcDateString(d), Decimal(d.year), Padded(d.month, 2), Padded(d.day, 2);
    DecimalDenotes(d.year);
    PaddedDenotes(d.month, 2);
    PaddedDenotes(d.day, 2);
    ThreeBlocks(y, m, n);
    DecimalLeads(d.year);
  }

  /** The browser's text is the ISO text exactly for the years of four digits. */
  lemma UtcDateStringIsIso(d: Date)
    requires ValidDate(d) && 0 <= d.year <= 9999
    ensures UtcDateString(d) == Iso(d) <==> 1000 <= d.year
  {
    Powers();
    DecimalDigits(d.year, 4);
    if 1000 <= d.year {
      DecimalIsPadded(d.year, 4);
    } else {
      DecimalDigits(d.year, |Decimal(d.year)|);
      assert |UtcDateString(d)| == |Decimal(d.year)| + 6 && |Iso(d)| == 10;
    }
  }

  // ---------------------------------------------------------------- the order of the browser's texts

  lemma YearTextIsInjective(m: int, n: int)
    requires YearText(m) == YearText(n)
    ensures m == n
  {
    assert m < 0 <==> YearText(m)[0] == '-';
    assert n < 0 <==> YearText(n)[0] == '-';
    if m < 0 {
      assert YearText(m)[1..] == Decimal(-m) && YearText(n)[1..] == Decimal(-n);
      DecimalIsInjective(-m, -n);
    } else {
      DecimalIsInjective(m, n);
    }
  }

  /** Texts of different years are ordered as the texts of the years are. */
  lemma LessByYear(m: int, n: int, x: string, y: string)
    requires m != n
    ensures Less(YearText(m) + ("-" + x), YearText(n) + ("-" + y)) <==> Less(YearText(m), YearText(n))
  {
    var p, q := YearText(m), YearText(n);
    assert p != q by {
      if p == q {
        YearTextIsInjective(m, n);
      }
    }
    if p[0] == q[0] {
      assert p == [p[0]] + p[1..] && q == [q[0]] + q[1..];
      assert (p + ("-" + x))[1..] == p[1..] + ("-" + x) && (q + ("-" + y))[1..] == q[1..] + ("-" + y);
      LessByWord(p[1..], q[1..], x, y);
    }
  }

  /** How the browser's texts of any two dates are ordered: by the texts of their years, and within a year as the days. */
  lemma BrowserTextOrder(a: Date, b: Date)
    requires ValidDate(a) && ValidDate(b)
    ensures Less(UtcDateString(a), UtcDateString(b)) <==>
            if a.year == b.year then DayNumber(a) < DayNumber(b) else Less(YearText(a.year), YearText(b.year))
  {
    Powers();
    var r, s, x, y := Padded(a.month, 2), Padded(b.month, 2), Padded(a.day, 2), Padded(b.day, 2);
    if a.year == b.year {
      DayNumberOrder(a, b);
      var p := YearText(a.year);
      PaddedOrder(a.month, b.month, 2);
      PaddedOrder(a.day, b.day, 2);
      LessByThreeBlocks(p, p, r, s, x, y);
      LessIsIrreflexive(p);
    } else {
      assert UtcDateString(a) == YearText(a.year) + ("-" + (r + "-" + x));
      assert UtcDateString(b) == YearText(b.year) + ("-" + (s + "-" + y));
      LessByYear(a.year, b.year, r + "-" + x, s + "-" + y);
    }
  }

  predicate InYears(d: Date, lo: int, hi: int) { ValidDate(d) && lo <= d.year <= hi }

  /** Over all dates of the years, the texts are ordered as the days are. */
  ghost predicate TextFollowsDays(lo: int, hi: int) {
    forall a, b :: InYears(a, lo, hi) && InYears(b, lo, hi) ==>
      (Less(UtcDateString(a), UtcDateString(b)) <==> DayNumber(a) < DayNumber(b))
  }

  lemma SameDigitsSameOrder(a: Date, b: Date)
    requires ValidDate(a) && ValidDate(b) && 0 <= a.year && 0 <= b.year && |Decimal(a.year)| == |Decimal(b.year)|
    ensures Less(UtcDateString(a), UtcDateString(b)) <==> DayNumber(a) < DayNumber(b)
  {
    BrowserTextOrder(a, b);
    DecimalOrder(a.year, b.year);
    DayNumberOrder(a, b);
  }

  /** The order of the browser's texts is the order of the days exactly over years of equally many digits. */
  lemma BrowserTextFollowsDaysExactly(lo: nat, hi: nat)
    requires lo <= hi
    ensures TextFollowsDays(lo, hi) <==> |Decimal(lo)| == |Decimal(hi)|
  {
    var width := |Decimal(lo)|;
    DecimalDigits(lo, width);
    DecimalDigits(hi, width);
    if |Decimal(hi)| == width {
      forall a, b | InYears(a, lo, hi) && InYears(b, lo, hi)
        ensures Less(UtcDateString(a), UtcDateString(b)) <==> DayNumber(a) < DayNumber(b)
      {
        DecimalDigits(a.year, width);
        DecimalDigits(b.year, width);
        SameDigitsSameOrder(a, b);
      }
    } else {
      TextTurnsAtThePower(width);
      var a, b := Date(Power10(width) - 1, 12, 31), Date(Power10(width), 1, 1);
      assert InYears(a, lo, hi) && InYears(b, lo, hi);
    }
  }

  /** The last day before the number of digits grows comes after the next day as text. */
  lemma TextTurnsAtThePower(width: nat)
    requires width > 0
    ensures var a, b := Date(Power10(width) - 1, 12, 31), Date(Power10(width), 1, 1);
            DayNumber(a) + 1 == DayNumber(b) && Less(UtcDateString(b), UtcDateString(a)) && !Less(UtcDateString(a), UtcDateString(b))
  {
    var a, b := Date(Power10(width) - 1, 12, 31), Date(Power10(width), 1, 1);
    DayNumberCountsDays(a);
    FirstDigits(width);
    assert UtcDateString(a)[0] == '9' && UtcDateString(b)[0] == '1';
  }
}
