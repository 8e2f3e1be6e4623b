/**
 When the order of the texts is the order of the days: the assumption under the
 range queries, with its exact limits.
 */
module DateText {
  import opened Decimal
  import opened Dates
  import opened TextOrder

  // ------------------------------------------------------------ fixed width

  lemma {:induction false} FixedOrder(a: nat, b: nat, width: nat)
    requires a < Pow10(width) && b < Pow10(width)
    ensures TextBefore(Fixed(a, width), Fixed(b, width)) <==> a < b
    ensures Fixed(a, width) == Fixed(b, width) <==> a == b
  {
    if width > 0 {
      FixedOrder(a / 10, b / 10, width - 1);
      TextByParts(Fixed(a / 10, width - 1), Fixed(b / 10, width - 1), [Digit(a % 10)], [Digit(b % 10)]);
      ParseOfFixed(a, width);
      ParseOfFixed(b, width);
      LastDigitDecides(a, b);
    }
  }

  lemma LastDigitDecides(a: nat, b: nat)
    ensures a < b <==> a / 10 < b / 10 || (a / 10 == b / 10 && a % 10 < b % 10)
  {}

  lemma {:induction false} PowersAscend(a: nat, b: nat)
    requires a < b
    ensures 10 * Pow10(a) <= Pow10(b)
    decreases b - a
  {
    if a < b - 1 { PowersAscend(a, b - 1); }
  }

  lemma {:induction false} DigitsAreFixed(n: nat)
    ensures var w := |Digits(n)|; Digits(n) == Fixed(n, w) && n < Pow10(w) && (n >= 10 ==> n >= Pow10(w - 1))
  {
    if n >= 10 {
      DigitsAreFixed(n / 10);
      var w := |Digits(n / 10)|;
      assert Digits(n) == Digits(n / 10) + [Digit(n % 10)];
      assert n == n / 10 * 10 + n % 10;
      if n / 10 < 10 { assert w == 1 && Pow10(1) == 10; }
    } else {
      assert Pow10(1) == 10 && Fixed(n, 1) == Fixed(n / 10, 0) + [Digit(n % 10)];
    }
  }

  /** How many digits a year's text has. */
  function Width(year: int): nat {
    |YearDigits(Magnitude(year))|
  }

  lemma YearDigitsAreFixed(year: int)
    ensures var n, w := Magnitude(year), Width(year);
      && w >= 4 && YearDigits(n) == Fixed(n, w) && n < Pow10(w) && (w > 4 ==> n >= Pow10(w - 1))
      && (n < 10000 <==> w == 4)
  {
    var n := Magnitude(year);
    assert Pow10(4) == 10000;
    if n >= 10000 {
      DigitsAreFixed(n);
      if |Digits(n)| <= 4 {
        if |Digits(n)| < 4 { PowersAscend(|Digits(n)|, 4); }
      }
    }
  }

  lemma WidthIs(year: int, w: nat)
    requires w >= 4 && Magnitude(year) < Pow10(w) && (w > 4 ==> Magnitude(year) >= Pow10(w - 1))
    ensures Width(year) == w
  {
    YearDigitsAreFixed(year);
    var v := Width(year);
    if v < w {
      if v < w - 1 { PowersAscend(v, w - 1); }
    } else if w < v {
      if w < v - 1 { PowersAscend(w, v - 1); }
    }
  }

  // ------------------------------------------------------- a text in pieces

  function Sign(year: int): string {
    if year < 0 then "-" else if year > 9999 then "+" else ""
  }

  /** Month and day. */
  function DayText(d: Date): string {
    Fixed(d.month, 2) + "-" + Fixed(d.day, 2)
  }

  lemma IsoInPieces(d: Date)
    ensures ToIso(d) == Sign(d.year) + Fixed(Magnitude(d.year), Width(d.year)) + ("-" + DayText(d))
  {
    YearDigitsAreFixed(d.year);
    var year, month, day := YearText(d.year), Fixed(d.month, 2), Fixed(d.day, 2);
    assert year == Sign(d.year) + Fixed(Magnitude(d.year), Width(d.year));
    assert year + "-" + month + "-" + day == year + ("-" + (month + "-" + day));
  }

  lemma DayTextOrder(a: Date, b: Date)
    ensures TextBefore(DayText(a), DayText(b)) <==> a.month < b.month || (a.month == b.month && a.day < b.day)
  {
    assert Pow10(2) == 100;
    FixedOrder(a.month, b.month, 2);
    FixedOrder(a.day, b.day, 2);
    DashedOrder(Fixed(a.month, 2), Fixed(b.month, 2), Fixed(a.day, 2), Fixed(b.day, 2));
  }

  /** Within a year, whichever it is, texts sort as days do. */
  lemma SameYearOrder(a: Date, b: Date)
    requires a.year == b.year
    ensures TextBefore(ToIso(a), ToIso(b)) <==> Before(a, b)
  {
    var year := Sign(a.year) + Fixed(Magnitude(a.year), Width(a.year));
    IsoInPieces(a);
    IsoInPieces(b);
    TextByParts(year, year, "-" + DayText(a), "-" + DayText(b));
    TextTotal(year, year);
    TextByParts("-", "-", DayText(a), DayText(b));
    DayTextOrder(a, b);
  }

  /** Two years of one sign and width: by their digits. */
  lemma LikeYearsOrder(a: Date, b: Date)
    requires a.year != b.year && Sign(a.year) == Sign(b.year) && Width(a.year) == Width(b.year)
    ensures TextBefore(ToIso(a), ToIso(b)) <==> Magnitude(a.year) < Magnitude(b.year)
  {
    var w, sign := Width(a.year), Sign(a.year);
    var x, y := Fixed(Magnitude(a.year), w), Fixed(Magnitude(b.year), w);
    YearDigitsAreFixed(a.year);
    YearDigitsAreFixed(b.year);
    IsoInPieces(a);
    IsoInPieces(b);
    FixedOrder(Magnitude(a.year), Magnitude(b.year), w);
    TextByParts(sign + x, sign + y, "-" + DayText(a), "-" + DayText(b));
    TextByParts(sign, sign, x, y);
    TextTotal(sign, sign);
    assert x == (sign + x)[|sign|..] && y == (sign + y)[|sign|..];
  }

  lemma SignFirst(d: Date)
    ensures ToIso(d) != ""
    ensures d.year > 9999 ==> ToIso(d)[0] == '+'
    ensures d.year < 0 ==> ToIso(d)[0] == '-'
    ensures Plain(d) ==> '0' <= ToIso(d)[0] <= '9'
  {
    IsoInPieces(d);
    YearDigitsAreFixed(d.year);
    if Plain(d) { FixedFirst(d.year, Width(d.year)); }
  }

  /** Signs come before digits, and plus before minus. */
  lemma OtherSignOrder(a: Date, b: Date)
    requires (a.year < 0 && Plain(b)) || (a.year > 9999 && (b.year < 0 || Plain(b)))
    ensures TextBefore(ToIso(a), ToIso(b))
  {
    SignFirst(a);
    SignFirst(b);
  }

  // ------------------------------------------------------- powers of ten

  lemma {:induction false} NinesFirst(k: nat)
    requires k > 0
    ensures Fixed(Pow10(k) - 1, k)[0] == '9'
  {
    if k > 1 {
      NinesFirst(k - 1);
      assert (Pow10(k) - 1) / 10 == Pow10(k - 1) - 1;
    } else {
      assert Pow10(1) == 10 && Fixed(9, 1) == Fixed(0, 0) + [Digit(9)];
    }
  }

  lemma {:induction false} OneFirst(k: nat)
    ensures Fixed(Pow10(k), k + 1)[0] == '1'
  {
    if k > 0 {
      OneFirst(k - 1);
      assert Pow10(k) / 10 == Pow10(k - 1);
    } else {
      assert Fixed(1, 1) == Fixed(0, 0) + [Digit(1)];
    }
  }

  lemma PowerWidths(k: nat)
    requires k >= 4
    ensures Width(Pow10(k)) == k + 1 && Width(Pow10(k) - 1) == k
    ensures Pow10(k) > 9999 && (k > 4 ==> Pow10(k) - 1 > 9999)
  {
    assert Pow10(4) == 10000;
    if k > 4 { PowersAscend(4, k); }
    WidthIs(Pow10(k), k + 1);
    WidthIs(Pow10(k) - 1, k);
  }

  /** Where the number of digits grows, 10..0 stands before 9..9. */
  lemma PowerBeforeNines(a: Date, b: Date, j: nat, k: nat)
    requires j >= 4 && k >= 4 && Magnitude(a.year) == Pow10(j) && Magnitude(b.year) == Pow10(k) - 1
    requires Sign(a.year) == Sign(b.year)
    ensures TextBefore(ToIso(a), ToIso(b))
  {
    PowerWidths(j);
    PowerWidths(k);
    OneFirst(j);
    NinesFirst(k);
    IsoInPieces(a);
    IsoInPieces(b);
    FirstDiffers(Sign(a.year), Fixed(Pow10(j), j + 1), Fixed(Pow10(k) - 1, k), "-" + DayText(a), "-" + DayText(b));
  }

  // ------------------------------------------- years that sort as they count

  /** All days of the years from `lo` to `hi` sort as they follow one another. */
  ghost predicate YearsSort(lo: int, hi: int) {
    forall a: Date, b: Date :: lo <= a.year <= hi && lo <= b.year <= hi ==>
      (TextBefore(ToIso(a), ToIso(b)) <==> Before(a, b))
  }

  /** Something a caller can look up: one year, or -1 to 9999, or one width past 9999, or two negative years at a change. */
  predicate OneText(lo: int, hi: int) {
    || lo == hi
    || (-1 <= lo && hi <= 9999)
    || (lo > 9999 && Width(lo) == Width(hi))
    || (hi == lo + 1 < 0 && Width(lo) != Width(hi))
  }

  lemma WidthsAscend(a: int, b: int)
    requires Magnitude(a) <= Magnitude(b)
    ensures Width(a) <= Width(b)
  {
    YearDigitsAreFixed(a);
    YearDigitsAreFixed(b);
    if Width(b) < Width(a) - 1 { PowersAscend(Width(b), Width(a) - 1); }
  }

  /** The width changes from one number to the next at a power of ten, and nowhere else. */
  lemma WidthGrowsAtPower(n: nat) returns (k: nat)
    requires Width(n) != Width(n + 1)
    ensures k >= 4 && n + 1 == Pow10(k)
  {
    YearDigitsAreFixed(n);
    YearDigitsAreFixed(n + 1);
    WidthsAscend(n, n + 1);
    k := Width(n);
    if k < Width(n + 1) - 1 { PowersAscend(k, Width(n + 1) - 1); }
  }

  /** An earlier year's days come first. */
  lemma EarlierYearFirst(lo: int, hi: int, a: Date, b: Date)
    requires OneText(lo, hi) && lo <= a.year < b.year <= hi
    ensures TextBefore(ToIso(a), ToIso(b))
  {
    YearDigitsAreFixed(a.year);
    YearDigitsAreFixed(b.year);
    if -1 <= lo && hi <= 9999 {
      if a.year < 0 { OtherSignOrder(a, b); } else { LikeYearsOrder(a, b); }
    } else if lo > 9999 {
      WidthsAscend(lo, a.year);
      WidthsAscend(a.year, b.year);
      WidthsAscend(b.year, hi);
      LikeYearsOrder(a, b);
    } else {
      var k := WidthGrowsAtPower(Magnitude(b.year));
      PowerBeforeNines(a, b, k, k);
    }
  }

  lemma OneTextSorts(lo: int, hi: int)
    requires OneText(lo, hi)
    ensures YearsSort(lo, hi)
  {
    forall a: Date, b: Date | lo <= a.year <= hi && lo <= b.year <= hi
      ensures TextBefore(ToIso(a), ToIso(b)) <==> Before(a, b)
    {
      if a.year == b.year {
        SameYearOrder(a, b);
      } else if a.year < b.year {
        EarlierYearFirst(lo, hi, a, b);
      } else {
        EarlierYearFirst(lo, hi, b, a);
        TextTotal(ToIso(a), ToIso(b));
      }
    }
  }

  /** Two years in a row, the second of which sorts first. */
  lemma ReversedNeighbours(lo: int, hi: int) returns (year: int)
    requires lo <= hi && !OneText(lo, hi)
    ensures lo <= year < hi
    ensures forall a: Date, b: Date :: a.year == year && b.year == year + 1 ==> TextBefore(ToIso(b), ToIso(a))
  {
    if lo < -1 {
      year := if Width(lo) == Width(lo + 1) then lo else lo + 1;
      NegativeYearsReversed(lo, year);
    } else if lo <= 9999 {
      year := 9999;
      forall a: Date, b: Date | a.year == 9999 && b.year == 10000 ensures TextBefore(ToIso(b), ToIso(a)) {
        OtherSignOrder(b, a);
      }
    } else {
      var k: nat;
      year, k := GrowingYear(lo, hi);
      forall a: Date, b: Date | a.year == year && b.year == year + 1 ensures TextBefore(ToIso(b), ToIso(a)) {
        PowerBeforeNines(b, a, k, k);
      }
    }
  }

  lemma {:induction false} GrowingYear(lo: int, hi: int) returns (year: int, k: nat)
    requires 9999 < lo <= hi && Width(lo) != Width(hi)
    ensures lo <= year < hi && k >= 4 && year + 1 == Pow10(k)
    decreases hi - lo
  {
    if Width(lo) != Width(lo + 1) {
      year := lo;
      k := WidthGrowsAtPower(lo);
    } else {
      year, k := GrowingYear(lo + 1, hi);
    }
  }

  lemma NegativeYearsReversed(lo: int, year: int)
    requires lo < -1 && year == if Width(lo) == Width(lo + 1) then lo else lo + 1
    ensures forall a: Date, b: Date :: a.year == year && b.year == year + 1 ==> TextBefore(ToIso(b), ToIso(a))
  {
    if year != lo {
      var k := WidthGrowsAtPower(Magnitude(lo + 1));
      assert Pow10(4) == 10000;
      if k > 4 { PowersAscend(4, k); }
      PowerWidths(k);
      if k > 4 { PowersAscend(k - 1, k); }
      WidthIs(lo + 2, k);
    }
    forall a: Date, b: Date | a.year == year && b.year == year + 1 ensures TextBefore(ToIso(b), ToIso(a)) {
      LikeYearsOrder(b, a);
    }
  }

  /**
   Texts sort as days over a range of years exactly when it is one year, or
   lies between -1 and 9999, or has one width past 9999, or is the one pair of
   negative years where the width shrinks.
   */
  lemma TextOrderIsDateOrderIff(lo: int, hi: int)
    requires lo <= hi
    ensures YearsSort(lo, hi) <==> OneText(lo, hi)
  {
    if OneText(lo, hi) {
      OneTextSorts(lo, hi);
    } else {
      var year := ReversedNeighbours(lo, hi);
      var a, b := Ymd(year, 1, 1), Ymd(year + 1, 1, 1);
      assert TextBefore(ToIso(b), ToIso(a)) && Before(a, b);
    }
  }

  /** For years 0 to 9999 in particular. */
  lemma TextOrderIsDateOrder(a: Date, b: Date)
    requires Plain(a) && Plain(b)
    ensures TextBefore(ToIso(a), ToIso(b)) <==> Before(a, b)
  {
    OneTextSorts(0, 9999);
  }
}
