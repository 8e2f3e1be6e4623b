/** When selecting texts between two texts selects the days between two days. */
module RangeText {
  import opened Decimal
  import opened Dates
  import opened TextOrder
  import opened DateText

  predicate TextBetween(from: Date, to: Date, d: Date) {
    TextNotAfter(ToIso(from), ToIso(d)) && TextNotAfter(ToIso(d), ToIso(to))
  }

  predicate DayBetween(from: Date, to: Date, d: Date) {
    NotAfter(from, d) && NotAfter(d, to)
  }

  /** Of the days there are, exactly those of the range are selected. */
  ghost predicate RangeIsExact(from: NaiveDate, to: NaiveDate) {
    forall d: NaiveDate :: TextBetween(from, to, d) <==> DayBetween(from, to, d)
  }

  /**
   One year, or no sign, or five digits where no year has those digits and
   one more, or six digits that agree in the first five.
   */
  predicate Selectable(from: NaiveDate, to: NaiveDate) {
    || from.year == to.year
    || (Plain(from) && Plain(to))
    || (MAX_YEAR / 10 < from.year <= to.year <= 99999)
    || (100000 <= from.year <= to.year && from.year / 10 == to.year / 10)
  }

  // ------------------------------------------------------------ two widths

  /** A number without its last `j` digits. */
  function Lead(n: nat, j: nat): nat {
    if j == 0 then n else Lead(n / 10, j - 1)
  }

  lemma LeadIs(n: nat)
    ensures Lead(n, 1) == n / 10 && Lead(n, 2) == n / 10 / 10
  {
    assert Lead(n / 10, 1) == Lead(n / 10 / 10, 0);
  }

  lemma {:induction false} LeadFits(n: nat, w: nat, j: nat)
    requires n < Pow10(w + j)
    ensures Lead(n, j) < Pow10(w)
  {
    if j > 0 { LeadFits(n / 10, w, j - 1); }
  }

  lemma {:induction false} FixedSplits(n: nat, w: nat, j: nat) returns (tail: string)
    ensures Fixed(n, w + j) == Fixed(Lead(n, j), w) + tail
    ensures |tail| == j && (j > 0 ==> '0' <= tail[0] <= '9')
  {
    if j == 0 {
      tail := "";
    } else {
      var front := FixedSplits(n / 10, w, j - 1);
      tail := front + [Digit(n % 10)];
      assert Fixed(n, w + j) == Fixed(n / 10, w + j - 1) + [Digit(n % 10)];
    }
  }

  lemma Regrouped(s: string, x: string, tail: string, rest: string)
    ensures s + (x + tail) + rest == s + x + (tail + rest)
  {}

  /** Two years of one sign, the first with more digits: by its leading digits, and after the second if those agree. */
  lemma WiderOrder(a: Date, b: Date, j: nat)
    requires Sign(a.year) == Sign(b.year) && Width(a.year) == Width(b.year) + j && j > 0
    ensures TextBefore(ToIso(a), ToIso(b)) <==> Lead(Magnitude(a.year), j) < Magnitude(b.year)
    ensures TextBefore(ToIso(b), ToIso(a)) <==> Magnitude(b.year) <= Lead(Magnitude(a.year), j)
  {
    var s, w, lead := Sign(a.year), Width(b.year), Lead(Magnitude(a.year), j);
    var tail := FixedSplits(Magnitude(a.year), w, j);
    YearDigitsAreFixed(a.year);
    YearDigitsAreFixed(b.year);
    LeadFits(Magnitude(a.year), w, j);
    FixedOrder(lead, Magnitude(b.year), w);
    IsoInPieces(a);
    IsoInPieces(b);
    LongerText(s, Fixed(lead, w), tail, DayText(a), Fixed(Magnitude(b.year), w), DayText(b));
    TextTotal(ToIso(a), ToIso(b));
  }

  lemma LongerText(s: string, x: string, tail: string, c: string, y: string, d: string)
    requires |x| == |y| && tail != "" && '0' <= tail[0] <= '9'
    ensures TextBefore(s + (x + tail) + ("-" + c), s + y + ("-" + d)) <==> TextBefore(x, y)
  {
    Regrouped(s, x, tail, "-" + c);
    TextByParts(s + x, s + y, tail + ("-" + c), "-" + d);
    TextByParts(s, s, x, y);
    TextTotal(s, s);
  }

  /** Whatever lies between two texts that begin alike begins like them. */
  lemma {:induction false} BetweenSharesPrefix(prefix: string, a: string, b: string, t: string)
    requires TextNotAfter(prefix + a, t) && TextNotAfter(t, prefix + b)
    ensures prefix <= t
    decreases |prefix|
  {
    if prefix != "" {
      var rest := prefix[1..];
      assert (prefix + a)[1..] == rest + a && (prefix + b)[1..] == rest + b;
      assert (prefix + a)[0] == prefix[0] && (prefix + b)[0] == prefix[0];
      BetweenSharesPrefix(rest, a, b, t[1..]);
      assert prefix == [prefix[0]] + rest && t == [t[0]] + t[1..];
    }
  }

  /** The text up to the dash says which year it is. */
  lemma YearOfPrefix(year: int, d: Date)
    requires Sign(year) + Fixed(Magnitude(year), Width(year)) + "-" <= ToIso(d)
    ensures d.year == year
  {
    var s, x, y := Sign(d.year), Fixed(Magnitude(year), Width(year)), Fixed(Magnitude(d.year), Width(d.year));
    SignsAgree(year, d);
    IsoInPieces(d);
    WithoutPrefix(s, x, y, DayText(d));
    FixedIsDigits(Magnitude(year), Width(year));
    FixedIsDigits(Magnitude(d.year), Width(d.year));
    DashesAlign(x, y, DayText(d));
    YearDigitsAreFixed(year);
    YearDigitsAreFixed(d.year);
    FixedOrder(Magnitude(year), Magnitude(d.year), Width(year));
  }

  lemma WithoutPrefix(s: string, x: string, y: string, rest: string)
    requires s + x + "-" <= s + y + ("-" + rest)
    ensures x + "-" <= y + ("-" + rest)
  {
    assert (s + x + "-")[|s|..] == x + "-" && (s + y + ("-" + rest))[|s|..] == y + ("-" + rest);
  }

  lemma SignOfText(year: int, rest: string)
    requires rest != "" && '0' <= rest[0] <= '9'
    ensures var t := Sign(year) + rest;
            t[0] == if year < 0 then '-' else if year > 9999 then '+' else rest[0]
  {}

  lemma SignsAgree(year: int, d: Date)
    requires Sign(year) + Fixed(Magnitude(year), Width(year)) + "-" <= ToIso(d)
    ensures Sign(year) == Sign(d.year)
  {
    YearDigitsAreFixed(year);
    FixedFirst(Magnitude(year), Width(year));
    var x := Fixed(Magnitude(year), Width(year));
    assert (x + "-")[0] == x[0];
    SignOfText(year, x + "-");
    assert Sign(year) + x + "-" == Sign(year) + (x + "-");
    SignFirst(d);
    assert ToIso(d)[0] == (Sign(year) + x + "-")[0];
  }

  lemma {:induction false} FixedIsDigits(n: nat, width: nat)
    ensures forall i :: 0 <= i < width ==> '0' <= Fixed(n, width)[i] <= '9'
  {
    if width > 0 { FixedIsDigits(n / 10, width - 1); }
  }

  lemma DashesAlign(x: string, y: string, rest: string)
    requires x + "-" <= y + ("-" + rest)
    requires (forall i :: 0 <= i < |x| ==> x[i] != '-') && (forall i :: 0 <= i < |y| ==> y[i] != '-')
    ensures x == y
  {
    var t := y + ("-" + rest);
    assert t[..|x| + 1] == x + "-";
    assert t == x + t[|x|..] && t[|x|] == (x + "-")[|x|] && t[|y|] == '-';
    if |x| != |y| { assert false; }
    assert x == (x + "-")[..|x|] && y == t[..|y|] && t[..|x| + 1][..|x|] == t[..|x|];
  }

  lemma SameYearRange(from: Date, to: Date, d: Date)
    requires from.year == to.year
    ensures TextBetween(from, to, d) <==> DayBetween(from, to, d)
  {
    ToIsoIsInjective(from, d);
    ToIsoIsInjective(d, to);
    if d.year == from.year {
      SameYearOrder(from, d);
      SameYearOrder(d, to);
    } else if TextBetween(from, to, d) {
      BetweenIsOfTheYear(from, to, d);
    }
  }

  lemma BetweenIsOfTheYear(from: Date, to: Date, d: Date)
    requires from.year == to.year && TextBetween(from, to, d)
    ensures d.year == from.year
  {
    var year := Sign(from.year) + Fixed(Magnitude(from.year), Width(from.year));
    IsoInPieces(from);
    IsoInPieces(to);
    Reassociate(year, DayText(from));
    Reassociate(year, DayText(to));
    BetweenSharesPrefix(year + "-", DayText(from), DayText(to), ToIso(d));
    YearOfPrefix(from.year, d);
  }

  lemma Reassociate(a: string, b: string)
    ensures a + ("-" + b) == a + "-" + b
  {}

  // -------------------------------------------------------- when it is exact

  lemma OtherSignIsOutside(from: Date, to: Date, d: Date)
    requires from.year > 9999 && to.year > 9999 && d.year <= 9999
    ensures !TextBetween(from, to, d) && !DayBetween(from, to, d)
  {
    OtherSignOrder(to, d);
    TextTotal(ToIso(to), ToIso(d));
  }

  /** Among years that sort as they count, texts select what days do. */
  lemma SortedAreExact(lo: int, hi: int, from: Date, to: Date, d: Date)
    requires OneText(lo, hi) && lo <= from.year <= hi && lo <= to.year <= hi && lo <= d.year <= hi
    ensures TextBetween(from, to, d) <==> DayBetween(from, to, d)
  {
    OneTextSorts(lo, hi);
    ToIsoIsInjective(from, d);
    ToIsoIsInjective(d, to);
  }

  lemma PlainRange(from: Date, to: Date, d: Date)
    requires Plain(from) && Plain(to)
    ensures TextBetween(from, to, d) <==> DayBetween(from, to, d)
  {
    if Plain(d) {
      SortedAreExact(0, 9999, from, to, d);
    } else {
      OtherSignOrder(d, from);
      TextTotal(ToIso(d), ToIso(from));
    }
  }

  lemma WidthOf(year: int)
    requires MIN_YEAR <= year <= MAX_YEAR
    ensures Width(year) == if Magnitude(year) <= 9999 then 4 else if Magnitude(year) <= 99999 then 5 else 6
  {
    assert Pow10(1) == 10 && Pow10(2) == 100 && Pow10(4) == 10000 && Pow10(5) == 100000 && Pow10(6) == 1000000;
    WidthIs(year, if Magnitude(year) <= 9999 then 4 else if Magnitude(year) <= 99999 then 5 else 6);
  }

  lemma FiveDigitRange(from: NaiveDate, to: NaiveDate, d: NaiveDate)
    requires MAX_YEAR / 10 < from.year <= to.year <= 99999
    ensures TextBetween(from, to, d) <==> DayBetween(from, to, d)
  {
    WidthOf(from.year);
    WidthOf(d.year);
    if d.year <= 9999 {
      OtherSignIsOutside(from, to, d);
    } else if d.year <= 99999 {
      WidthOf(10000);
      WidthOf(99999);
      SortedAreExact(10000, 99999, from, to, d);
    } else {
      OneDigitMore(d, from);
    }
  }

  lemma OneDigitMore(a: NaiveDate, b: NaiveDate)
    requires 100000 <= a.year && 10000 <= b.year <= 99999
    ensures TextBefore(ToIso(a), ToIso(b)) <==> a.year / 10 < b.year
    ensures TextBefore(ToIso(b), ToIso(a)) <==> b.year <= a.year / 10
    ensures TextNotAfter(ToIso(a), ToIso(b)) <==> a.year / 10 < b.year
    ensures TextNotAfter(ToIso(b), ToIso(a)) <==> b.year <= a.year / 10
  {
    WidthOf(a.year);
    WidthOf(b.year);
    LeadIs(a.year);
    WiderOrder(a, b, 1);
    ToIsoIsInjective(a, b);
  }

  lemma SixDigitRange(from: NaiveDate, to: NaiveDate, d: NaiveDate)
    requires 100000 <= from.year <= to.year && from.year / 10 == to.year / 10
    ensures TextBetween(from, to, d) <==> DayBetween(from, to, d)
  {
    if d.year <= 9999 {
      OtherSignIsOutside(from, to, d);
    } else if d.year <= 99999 {
      OneDigitMore(from, d);
      OneDigitMore(to, d);
    } else {
      WidthOf(100000);
      WidthOf(MAX_YEAR);
      SortedAreExact(100000, MAX_YEAR, from, to, d);
    }
  }

  lemma SelectableIsExact(from: NaiveDate, to: NaiveDate)
    requires Selectable(from, to)
    ensures RangeIsExact(from, to)
  {
    forall d: NaiveDate ensures TextBetween(from, to, d) <==> DayBetween(from, to, d) {
      if from.year == to.year {
        SameYearRange(from, to, d);
      } else if Plain(from) && Plain(to) {
        PlainRange(from, to, d);
      } else if from.year <= 99999 {
        FiveDigitRange(from, to, d);
      } else {
        SixDigitRange(from, to, d);
      }
    }
  }

  /** And whatever is selected sorts as the days do. */
  lemma SelectableSorts(from: NaiveDate, to: NaiveDate)
    requires Selectable(from, to)
    ensures YearsSort(from.year, to.year)
  {
    WidthOf(from.year);
    WidthOf(to.year);
    OneTextSorts(from.year, to.year);
  }

  // ------------------------------------------------- and when it is not

  /** Reversed ends select nothing, not even the first of them. */
  lemma ReversedEnds(from: NaiveDate, to: NaiveDate)
    requires NotAfter(from, to) && TextBefore(ToIso(to), ToIso(from))
    ensures !RangeIsExact(from, to)
  {
    TextTotal(ToIso(to), ToIso(from));
    assert !TextBetween(from, to, from) && DayBetween(from, to, from);
  }

  /** Years of five digits, the first of which has a year of six that begins with it. */
  lemma FiveDigitsInexact(from: NaiveDate, to: NaiveDate) returns (d: NaiveDate)
    requires 10000 <= from.year < to.year <= 99999 && from.year <= MAX_YEAR / 10
    ensures TextBetween(from, to, d) && !DayBetween(from, to, d)
  {
    d := Ymd(10 * from.year, 1, 1);
    OneDigitMore(d, from);
    OneDigitMore(d, to);
  }

  /** Years of five digits and of six: the last of the five sort after all the six. */
  lemma WideningInexact(from: NaiveDate, to: NaiveDate) returns (d: NaiveDate)
    requires 10000 <= from.year <= 99999 < to.year
    ensures !TextBetween(from, to, d) && DayBetween(from, to, d)
  {
    d := Ymd(99999, 12, 31);
    OneDigitMore(to, d);
  }

  /** Years of six digits that differ in the first five: a year of those five lies between. */
  lemma SixDigitsInexact(from: NaiveDate, to: NaiveDate) returns (d: NaiveDate)
    requires 100000 <= from.year < to.year && from.year / 10 != to.year / 10
    ensures TextBetween(from, to, d) && !DayBetween(from, to, d)
  {
    d := Ymd(to.year / 10, 1, 1);
    OneDigitMore(from, d);
    OneDigitMore(to, d);
  }

  /** Years before 0: more digits are compared by the leading ones, as many as the other has. */
  lemma NegativeOrder(a: NaiveDate, b: NaiveDate)
    requires a.year < 0 && b.year < 0 && Width(a.year) > Width(b.year)
    ensures var lead := Lead(Magnitude(a.year), Width(a.year) - Width(b.year));
      && (TextBefore(ToIso(a), ToIso(b)) <==> lead < Magnitude(b.year))
      && (TextBefore(ToIso(b), ToIso(a)) <==> Magnitude(b.year) <= lead)
  {
    WiderOrder(a, b, Width(a.year) - Width(b.year));
  }

  /** Before year 0 the last year sorts first. */
  lemma NegativeStartInexact(from: NaiveDate, to: NaiveDate)
    requires from.year < 0 && Plain(to)
    ensures !RangeIsExact(from, to)
  {
    if from.year == -1 {
      BeforeTheLast(from, to, Ymd(-2, 1, 1));
    } else {
      var d := Ymd(-1, 12, 31);
      LastSortsFirst(from, d);
      assert DayBetween(from, to, d) && !TextBetween(from, to, d);
    }
  }

  lemma BeforeTheLast(from: NaiveDate, to: NaiveDate, d: NaiveDate)
    requires from.year == -1 && Plain(to) && d.year == -2
    ensures TextBetween(from, to, d) && !DayBetween(from, to, d)
  {
    WidthOf(-1);
    WidthOf(-2);
    LikeYearsOrder(from, d);
    OtherSignOrder(d, to);
  }

  lemma LastSortsFirst(from: NaiveDate, d: NaiveDate)
    requires from.year < -1 && d.year == -1
    ensures TextBefore(ToIso(d), ToIso(from)) && !TextNotAfter(ToIso(from), ToIso(d))
  {
    WidthOf(-1);
    WidthOf(from.year);
    if Width(from.year) == 4 {
      LikeYearsOrder(d, from);
    } else {
      NegativeOrder(from, d);
      LeadIsPositive(Magnitude(from.year), Width(from.year) - 4);
    }
    TextTotal(ToIso(d), ToIso(from));
  }

  lemma LeadIsPositive(n: nat, j: nat)
    requires n >= 10000 && 1 <= j <= 2
    ensures Lead(n, j) >= 1
  {
    LeadIs(n);
  }

  /** Both before year 0, with as many digits: reversed. */
  lemma NegativeAlikeReversed(from: NaiveDate, to: NaiveDate)
    requires from.year < to.year < 0 && Width(from.year) == Width(to.year)
    ensures TextBefore(ToIso(to), ToIso(from))
  {
    LikeYearsOrder(to, from);
  }

  /** A day between whose text comes after the end's: the first of the years that have the end's digits. */
  lemma AfterTheEnd(from: NaiveDate, to: NaiveDate) returns (d: NaiveDate)
    requires from.year < to.year < 0 && Width(from.year) > Width(to.year)
    requires to.year != -9999 && to.year != -99999
    ensures !TextBetween(from, to, d) && DayBetween(from, to, d)
  {
    WidthOf(from.year);
    WidthOf(to.year);
    d := Ymd(if Width(to.year) == 4 then -9999 else -99999, 1, 1);
    WidthOf(d.year);
    LikeYearsOrder(to, d);
    TextTotal(ToIso(to), ToIso(d));
  }

  /** A day past the end whose text comes before the end's. */
  lemma PastTheEnd(from: NaiveDate, to: NaiveDate) returns (d: NaiveDate)
    requires from.year < to.year && (to.year == -9999 || to.year == -99999) && Width(from.year) > Width(to.year)
    requires Lead(Magnitude(from.year), Width(from.year) - Width(to.year)) < Magnitude(to.year) - 1
    ensures TextBetween(from, to, d) && !DayBetween(from, to, d)
  {
    d := Ymd(to.year + 1, 1, 1);
    WidthOf(to.year);
    WidthOf(d.year);
    NegativeOrder(from, d);
    LikeYearsOrder(d, to);
  }

  /** A day between whose text comes before the first one's. */
  lemma BeforeTheStart(from: NaiveDate, to: NaiveDate) returns (d: NaiveDate)
    requires -99999 <= from.year < -10000 && to.year == -9999
    ensures !TextBetween(from, to, d) && DayBetween(from, to, d)
  {
    d := Ymd(-10000, 12, 31);
    WidthOf(from.year);
    WidthOf(-10000);
    LikeYearsOrder(d, from);
    TextTotal(ToIso(d), ToIso(from));
  }

  lemma NegativeYearsInexact(from: NaiveDate, to: NaiveDate)
    requires from.year < to.year < 0
    ensures !RangeIsExact(from, to)
  {
    WidthOf(from.year);
    WidthOf(to.year);
    if Width(from.year) == Width(to.year) {
      NegativeAlikeReversed(from, to);
      ReversedEnds(from, to);
    } else if to.year != -9999 && to.year != -99999 {
      var d := AfterTheEnd(from, to);
    } else {
      LastYearInexact(from, to);
    }
  }

  lemma LastYearInexact(from: NaiveDate, to: NaiveDate)
    requires from.year < to.year && (to.year == -9999 || to.year == -99999)
    ensures !RangeIsExact(from, to)
  {
    WidthOf(from.year);
    WidthOf(to.year);
    LeadIs(Magnitude(from.year));
    if -99999 <= from.year < -10000 {
      var d := BeforeTheStart(from, to);
    } else {
      var d := PastTheEnd(from, to);
    }
  }

  /** The range of days and the selection of texts are one exactly for the ends that `Selectable` describes. */
  lemma RangeIsExactIff(from: NaiveDate, to: NaiveDate)
    requires NotAfter(from, to)
    ensures RangeIsExact(from, to) <==> Selectable(from, to)
  {
    if Selectable(from, to) {
      SelectableIsExact(from, to);
    } else if to.year > 9999 && from.year <= 9999 {
      OtherSignOrder(to, from);
      ReversedEnds(from, to);
    } else if from.year > 9999 {
      LongYearsInexact(from, to);
    } else if to.year >= 0 {
      NegativeStartInexact(from, to);
    } else {
      NegativeYearsInexact(from, to);
    }
  }

  lemma LongYearsInexact(from: NaiveDate, to: NaiveDate)
    requires 9999 < from.year < to.year && !Selectable(from, to)
    ensures !RangeIsExact(from, to)
  {
    if to.year <= 99999 {
      var d := FiveDigitsInexact(from, to);
    } else if from.year <= 99999 {
      var d := WideningInexact(from, to);
    } else {
      var d := SixDigitsInexact(from, to);
    }
  }
}
