/** Text order and fixed-width numerals. */
module Text {
  import opened Prelude

  /** The order of strings: by the first differing character, a proper prefix first. */
  predicate Less(a: string, b: string)
    decreases |a|
  {
    if b == "" then false
    else if a == "" then true
    else if a[0] != b[0] then a[0] < b[0]
    else Less(a[1..], b[1..])
  }

  /** Text that starts with blocks of equal length is ordered block first. */
  lemma {:induction false} LessByBlocks(p: string, q: string, a: string, b: string)
    requires |p| == |q|
    ensures Less(p + a, q + b) <==> Less(p, q) || (p == q && Less(a, b))
  {
    if p == "" {
      assert p + a == a && q + b == b;
    } else {
      assert (p + a)[1..] == p[1..] + a && (q + b)[1..] == q[1..] + b;
      LessByBlocks(p[1..], q[1..], a, b);
      assert p == [p[0]] + p[1..] && q == [q[0]] + q[1..];
    }
  }

  lemma {:induction false} LessIsIrreflexive(a: string)
    ensures !Less(a, a)
  {
    if a != "" {
      LessIsIrreflexive(a[1..]);
    }
  }

  /** Exactly one of less, equal, greater. */
  lemma {:induction false} LessIsTotal(a: string, b: string)
    ensures Less(a, b) || a == b || Less(b, a)
    ensures Less(a, b) ==> a != b && !Less(b, a)
    decreases |a|
  {
    if a == "" || b == "" {
    } else {
      LessIsTotal(a[1..], b[1..]);
      assert a == [a[0]] + a[1..] && b == [b[0]] + b[1..];
    }
  }

  lemma {:induction false} LessIsTransitive(a: string, b: string, c: string)
    requires Less(a, b) && Less(b, c)
    ensures Less(a, c)
    decreases |a|
  {
    if a != "" && a[0] == b[0] == c[0] {
      LessIsTransitive(a[1..], b[1..], c[1..]);
    }
  }

  function Digit(n: nat): (c: char)
    requires n < 10
    ensures '0' <= c <= '9'
  {
    ['0', '1', '2', '3', '4', '5', '6', '7', '8', '9'][n]
  }

  function Power10(width: nat): (p: nat)
    ensures p >= 1
  {
    if width == 0 then 1 else 10 * Power10(width - 1)
  }

  /** `n` in decimal, padded with zeros to `width` digits. */
  function Padded(n: nat, width: nat): (s: string)
    requires n < Power10(width)
    ensures |s| == width
    decreases width
  {
    if width == 0 then "" else Padded(n / 10, width - 1) + [Digit(n % 10)]
  }

  /** `n` in decimal without padding. */
  function Decimal(n: nat): (s: string)
    ensures s != "" && forall i :: 0 <= i < |s| ==> '0' <= s[i] <= '9'
  {
    if n < 10 then [Digit(n)] else Decimal(n / 10) + [Digit(n % 10)]
  }

  /** The number a text of digits denotes. */
  function Denoted(s: string): int {
    if s == "" then 0 else 10 * Denoted(s[..|s| - 1]) + (s[|s| - 1] as int - '0' as int)
  }

  lemma DigitDenotes(n: nat)
    requires n < 10
    ensures Digit(n) as int == '0' as int + n
  {
  }

  lemma {:induction false} PaddedDenotes(n: nat, width: nat)
    requires n < Power10(width)
    ensures Denoted(Padded(n, width)) == n
    decreases width
  {
    if width > 0 {
      var front := Padded(n / 10, width - 1);
      PaddedDenotes(n / 10, width - 1);
      DigitDenotes(n % 10);
      assert Padded(n, width)[..width - 1] == front;
    }
  }

  lemma {:induction false} DecimalDenotes(n: nat)
    ensures Denoted(Decimal(n)) == n
  {
    DigitDenotes(n % 10);
    if n >= 10 {
      var front := Decimal(n / 10);
      DecimalDenotes(n / 10);
      assert Decimal(n)[..|front|] == front;
    } else {
      assert Decimal(n)[..0] == "";
    }
  }

  lemma DigitOrder(m: nat, n: nat)
    requires m < 10 && n < 10
    ensures Less([Digit(m)], [Digit(n)]) <==> m < n
    ensures Digit(m) == Digit(n) <==> m == n
  {
    assert m < n ==> Digit(m) < Digit(n);
    assert n < m ==> Digit(n) < Digit(m);
  }

  /** Numerals of one width are ordered as text just as they are as numbers. */
  lemma {:induction false} PaddedOrder(m: nat, n: nat, width: nat)
    requires m < Power10(width) && n < Power10(width)
    ensures Less(Padded(m, width), Padded(n, width)) <==> m < n
    ensures Padded(m, width) == Padded(n, width) <==> m == n
    decreases width
  {
    if width > 0 {
      PaddedOrder(m / 10, n / 10, width - 1);
      DigitOrder(m % 10, n % 10);
      var p, q := Padded(m / 10, width - 1), Padded(n / 10, width - 1);
      LessByBlocks(p, q, [Digit(m % 10)], [Digit(n % 10)]);
      assert Padded(m, width)[..width - 1] == p && Padded(n, width)[..width - 1] == q;
      assert Padded(m, width)[width - 1] == Digit(m % 10) && Padded(n, width)[width - 1] == Digit(n % 10);
      LessIsIrreflexive(Padded(m, width));
    }
  }

  /** A number with no leading zero needs no padding. */
  lemma {:induction false} DecimalIsPadded(n: nat, width: nat)
    requires width > 0 && n < Power10(width) && (width == 1 || Power10(width - 1) <= n)
    ensures Decimal(n) == Padded(n, width)
    decreases width
  {
    if width > 1 {
      DecimalIsPadded(n / 10, width - 1);
    } else {
      assert Padded(n / 10, 0) == "";
    }
  }

  /** How many digits a number has. */
  lemma {:induction false} DecimalDigits(n: nat, width: nat)
    requires width > 0
    ensures |Decimal(n)| == width <==> n < Power10(width) && (width == 1 || Power10(width - 1) <= n)
    decreases width
  {
    if width == 1 {
    } else if n < 10 {
      assert Power10(width - 1) == 10 * Power10(width - 2);
    } else {
      DecimalDigits(n / 10, width - 1);
    }
  }

  /** No leading zero, but for the number 0. */
  lemma {:induction false} DecimalLeads(n: nat)
    ensures Decimal(n)[0] == '0' ==> |Decimal(n)| == 1
    ensures Decimal(n)[0] == '0' <==> n == 0
  {
    if n >= 10 {
      DecimalLeads(n / 10);
    } else {
      DigitDenotes(n);
    }
  }

  lemma {:induction false} DecimalIsInjective(m: nat, n: nat)
    requires Decimal(m) == Decimal(n)
    ensures m == n
    decreases m
  {
    if m >= 10 && n >= 10 {
      var p, q := Decimal(m / 10), Decimal(n / 10);
      assert Decimal(m)[..|p|] == p && Decimal(n)[..|q|] == q;
      DecimalIsInjective(m / 10, n / 10);
      assert Digit(m % 10) == Decimal(m)[|p|] == Decimal(n)[|q|] == Digit(n % 10);
    }
    DigitOrder(m % 10, n % 10);
  }

  /** Numbers of equally many digits are ordered as text just as they are as numbers. */
  lemma DecimalOrder(m: nat, n: nat)
    requires |Decimal(m)| == |Decimal(n)|
    ensures Less(Decimal(m), Decimal(n)) <==> m < n
  {
    var width := |Decimal(m)|;
    DecimalDigits(m, width);
    DecimalDigits(n, width);
    DecimalIsPadded(m, width);
    DecimalIsPadded(n, width);
    PaddedOrder(m, n, width);
  }

  /** Where the number of digits grows, the first digit falls from 9 to 1. */
  lemma {:induction false} FirstDigits(width: nat)
    requires width > 0
    ensures Decimal(Power10(width) - 1)[0] == '9' && Decimal(Power10(width))[0] == '1'
  {
    if width == 1 {
      assert Power10(1) == 10 && Decimal(1) == "1";
    } else {
      FirstDigits(width - 1);
      var p := Power10(width - 1);
      assert Power10(width) == 10 * p && p == 10 * Power10(width - 2);
      assert (10 * p) / 10 == p && (10 * p - 1) / 10 == p - 1;
    }
  }

  predicate AfterDash(s: string) { forall i :: 0 <= i < |s| ==> '-' < s[i] }

  /** Different words of characters after the dash order the same with a dash and anything behind them. */
  lemma {:induction false} LessByWord(p: string, q: string, x: string, y: string)
    requires p != q && AfterDash(p) && AfterDash(q)
    ensures Less(p + ("-" + x), q + ("-" + y)) <==> Less(p, q)
    decreases |p|
  {
    if p == "" {
      assert p + ("-" + x) == "-" + x;
    } else if q == "" {
      assert q + ("-" + y) == "-" + y;
    } else if p[0] == q[0] {
      assert p == [p[0]] + p[1..] && q == [q[0]] + q[1..];
      assert (p + ("-" + x))[1..] == p[1..] + ("-" + x) && (q + ("-" + y))[1..] == q[1..] + ("-" + y);
      LessByWord(p[1..], q[1..], x, y);
    }
  }

  // ---------------------------------------------------------------- case and white space

  function LowerChar(c: char): char { if 'A' <= c <= 'Z' then c + 'a' - 'A' else c }

  function Lower(s: string): string { seq(|s|, i requires 0 <= i < |s| => LowerChar(s[i])) }

  /** White space: the blank, tab to carriage return, and the four separators. */
  predicate IsSpace(c: char) { c == ' ' || '\t' <= c <= '\r' || '\U{1C}' <= c <= '\U{1F}' }

  function StripLeft(s: string): string {
    if s != "" && IsSpace(s[0]) then StripLeft(s[1..]) else s
  }

  function StripRight(s: string): string {
    if s != "" && IsSpace(s[|s| - 1]) then StripRight(s[..|s| - 1]) else s
  }

  function Strip(s: string): string { StripRight(StripLeft(s)) }

  /** Lower case changes the letters A to Z only, each to its small letter. */
  lemma LowerChanges(s: string, i: nat)
    requires i < |s|
    ensures |Lower(s)| == |s|
    ensures 'A' <= s[i] <= 'Z' ==> Lower(s)[i] as int == s[i] as int + 32
    ensures !('A' <= s[i] <= 'Z') ==> Lower(s)[i] == s[i]
  {
  }

  predicate IsWhite(c: char) {
    c == ' ' || c == '\t' || c == '\n' || c == '\r' || c == '\U{0B}' || c == '\U{0C}'
    || c == '\U{1C}' || c == '\U{1D}' || c == '\U{1E}' || c == '\U{1F}'
  }

  lemma {:induction false} StripLeftTrims(s: string) returns (left: string)
    ensures s == left + StripLeft(s) && forall i :: 0 <= i < |left| ==> IsWhite(left[i])
    ensures StripLeft(s) != "" ==> !IsWhite(StripLeft(s)[0])
  {
    if s != "" && IsSpace(s[0]) {
      var rest := StripLeftTrims(s[1..]);
      left := [s[0]] + rest;
      assert s == [s[0]] + s[1..];
    } else {
      left := "";
    }
  }

  lemma {:induction false} StripRightTrims(s: string) returns (right: string)
    ensures s == StripRight(s) + right && forall i :: 0 <= i < |right| ==> IsWhite(right[i])
    ensures StripRight(s) != "" ==> !IsWhite(StripRight(s)[|StripRight(s)| - 1]) && StripRight(s)[0] == s[0]
  {
    if s != "" && IsSpace(s[|s| - 1]) {
      var rest := StripRightTrims(s[..|s| - 1]);
      right := rest + [s[|s| - 1]];
      assert s == s[..|s| - 1] + [s[|s| - 1]];
    } else {
      right := "";
    }
  }

  /** Stripping takes white space off both ends, all of it and nothing else. */
  lemma StripTrims(s: string) returns (left: string, right: string)
    ensures s == left + Strip(s) + right
    ensures forall i :: 0 <= i < |left| ==> IsWhite(left[i])
    ensures forall i :: 0 <= i < |right| ==> IsWhite(right[i])
    ensures Strip(s) != "" ==> !IsWhite(Strip(s)[0]) && !IsWhite(Strip(s)[|Strip(s)| - 1])
  {
    left := StripLeftTrims(s);
    right := StripRightTrims(StripLeft(s));
    assert left + (Strip(s) + right) == left + Strip(s) + right;
  }
}
