/**
 The `time_entry` table: one body a user and day, filed under the day's text.
 A query is given its answer: the rows the database sends back.
 */
module Entries {
  import opened Base
  import opened Dates
  import opened TextOrder
  import opened RangeText

  type UserId = nat

  datatype Row = Row(text: string, body: string)

  type Table = map<(UserId, string), string>

  datatype RangeError = InvalidDate | InvalidRange | TooWide

  const MAX_RANGE_DAYS := 366

  /** What `SELECT .. WHERE entry_date BETWEEN .. ORDER BY entry_date` sends back. */
  ghost predicate Answers(table: Table, user: UserId, lo: string, hi: string, rows: seq<Row>) {
    && (forall i, j :: 0 <= i < j < |rows| ==> TextBefore(rows[i].text, rows[j].text))
    && forall text, body :: Row(text, body) in rows <==>
         (user, text) in table && table[(user, text)] == body && TextNotAfter(lo, text) && TextNotAfter(text, hi)
  }

  /** The same query, for the dates only. */
  ghost predicate DateAnswers(table: Table, user: UserId, lo: string, hi: string, texts: seq<string>) {
    && (forall i, j :: 0 <= i < j < |texts| ==> TextBefore(texts[i], texts[j]))
    && forall text :: text in texts <==> (user, text) in table && TextNotAfter(lo, text) && TextNotAfter(text, hi)
  }

  /** The stored day `d` of `user`, between the two. */
  predicate Stored(table: Table, user: UserId, from: NaiveDate, to: NaiveDate, d: NaiveDate) {
    (user, ToIso(d)) in table && NotAfter(from, d) && NotAfter(d, to)
  }

  class EntryTable {
    var table: Table

    constructor ()
      ensures table == map[]
    {
      table := map[];
    }

    method Save(user: UserId, date: NaiveDate, body: string)
      modifies this
      ensures table == old(table)[(user, ToIso(date)) := body]
    {
      table := table[(user, ToIso(date)) := body];
    }

    method Load(user: UserId, date: NaiveDate) returns (body: Option<string>)
      ensures body == if (user, ToIso(date)) in table then Some(table[(user, ToIso(date))]) else None
    {
      var key := (user, ToIso(date));
      body := if key in table then Some(table[key]) else None;
    }

    /**
     Exactly the stored days of the range, in ascending order, whatever else the
     table holds, for ends that texts can select between.
     */
    method DatesInRange(user: UserId, from: NaiveDate, to: NaiveDate, texts: seq<string>) returns (days: seq<NaiveDate>)
      requires DateAnswers(table, user, ToIso(from), ToIso(to), texts)
      ensures forall d: NaiveDate :: d in days <==> (user, ToIso(d)) in table && TextBetween(from, to, d)
      ensures Selectable(from, to) ==> forall d: NaiveDate :: d in days <==> Stored(table, user, from, to, d)
      ensures Selectable(from, to) ==> forall i, j :: 0 <= i < j < |days| ==> Before(days[i], days[j])
    {
      days := Sift(ParseIso, texts);
      DaysOfTexts(table, user, from, to, texts);
      if Selectable(from, to) {
        SelectableIsExact(from, to);
        DaysAscend(from, to, texts);
      }
    }

    /** The same with the bodies, as stored. */
    method EntriesInRange(user: UserId, from: NaiveDate, to: NaiveDate, rows: seq<Row>)
      returns (entries: seq<(NaiveDate, string)>)
      requires Answers(table, user, ToIso(from), ToIso(to), rows)
      ensures forall d: NaiveDate, body :: (d, body) in entries <==>
                (user, ToIso(d)) in table && table[(user, ToIso(d))] == body && TextBetween(from, to, d)
      ensures Selectable(from, to) ==>
        forall d: NaiveDate, body :: (d, body) in entries <==> Stored(table, user, from, to, d) && table[(user, ToIso(d))] == body
      ensures Selectable(from, to) ==>
        forall i, j :: 0 <= i < j < |entries| ==> Before(entries[i].0, entries[j].0)
    {
      entries := Sift(ReadRow, rows);
      EntriesOfRows(table, user, from, to, rows);
      if Selectable(from, to) {
        SelectableIsExact(from, to);
        EntriesAscend(table, user, from, to, rows);
      }
    }
  }

  function ReadRow(row: Row): Option<(NaiveDate, string)> {
    match ParseIso(row.text)
    case None => None
    case Some(d) => Some((d, row.body))
  }

  /** What can be read, in order; the rest is skipped. */
  function Sift<A, B>(read: A -> Option<B>, s: seq<A>): seq<B> {
    if s == [] then []
    else
      match read(s[0])
      case None => Sift(read, s[1..])
      case Some(b) => [b] + Sift(read, s[1..])
  }

  lemma {:induction false} SiftHas<A(!new), B>(read: A -> Option<B>, s: seq<A>, b: B)
    ensures b in Sift(read, s) <==> exists a :: a in s && read(a) == Some(b)
  {
    if s != [] {
      SiftHas(read, s[1..], b);
      assert s == [s[0]] + s[1..];
      assert forall a :: a in s <==> a == s[0] || a in s[1..];
    }
  }

  /** Skipping keeps the order: where two of the results came from. */
  lemma {:induction false} SiftKeepsOrder<A(!new), B>(read: A -> Option<B>, s: seq<A>, i: nat, j: nat) returns (k: nat, l: nat)
    requires i < j < |Sift(read, s)|
    ensures k < l < |s| && read(s[k]) == Some(Sift(read, s)[i]) && read(s[l]) == Some(Sift(read, s)[j])
  {
    if read(s[0]).None? {
      k, l := SiftKeepsOrder(read, s[1..], i, j);
      k, l := k + 1, l + 1;
    } else if i > 0 {
      k, l := SiftKeepsOrder(read, s[1..], i - 1, j - 1);
      k, l := k + 1, l + 1;
    } else {
      var b := Sift(read, s[1..])[j - 1];
      SiftHas(read, s[1..], b);
      var a :| a in s[1..] && read(a) == Some(b);
      var m :| 0 <= m < |s| - 1 && s[1..][m] == a;
      k, l := 0, m + 1;
    }
  }

  lemma DaysOfTexts(table: Table, user: UserId, from: NaiveDate, to: NaiveDate, texts: seq<string>)
    requires DateAnswers(table, user, ToIso(from), ToIso(to), texts)
    ensures forall d: NaiveDate :: d in Sift(ParseIso, texts) <==> (user, ToIso(d)) in table && TextBetween(from, to, d)
  {
    forall d: NaiveDate ensures d in Sift(ParseIso, texts) <==> (user, ToIso(d)) in table && TextBetween(from, to, d) {
      SiftHas(ParseIso, texts, d);
      if text :| text in texts && ParseIso(text) == Some(d) { ParseIsoIff(text, d); }
      ParseIsoIff(ToIso(d), d);
    }
  }

  /** Two days of one selectable range sort as their texts do. */
  lemma RangeSorts(from: NaiveDate, to: NaiveDate, a: NaiveDate, b: NaiveDate)
    requires Selectable(from, to) && DayBetween(from, to, a) && DayBetween(from, to, b)
    ensures TextBefore(ToIso(a), ToIso(b)) <==> Before(a, b)
  {
    SelectableSorts(from, to);
  }

  lemma DaysAscend(from: NaiveDate, to: NaiveDate, texts: seq<string>)
    requires Selectable(from, to) && forall i, j :: 0 <= i < j < |texts| ==> TextBefore(texts[i], texts[j])
    requires forall d: NaiveDate :: d in Sift(ParseIso, texts) ==> DayBetween(from, to, d)
    ensures forall i, j :: 0 <= i < j < |Sift(ParseIso, texts)| ==> Before(Sift(ParseIso, texts)[i], Sift(ParseIso, texts)[j])
  {
    var days := Sift(ParseIso, texts);
    forall i, j | 0 <= i < j < |days| ensures Before(days[i], days[j]) {
      var k, l := SiftKeepsOrder(ParseIso, texts, i, j);
      ParseIsoIff(texts[k], days[i]);
      ParseIsoIff(texts[l], days[j]);
      assert days[i] in days && days[j] in days;
      RangeSorts(from, to, days[i], days[j]);
    }
  }

  lemma EntriesOfRows(table: Table, user: UserId, from: NaiveDate, to: NaiveDate, rows: seq<Row>)
    requires Answers(table, user, ToIso(from), ToIso(to), rows)
    ensures forall d: NaiveDate, body :: (d, body) in Sift(ReadRow, rows) <==>
              (user, ToIso(d)) in table && table[(user, ToIso(d))] == body && TextBetween(from, to, d)
  {
    forall d: NaiveDate, body
      ensures (d, body) in Sift(ReadRow, rows) <==>
              (user, ToIso(d)) in table && table[(user, ToIso(d))] == body && TextBetween(from, to, d)
    {
      EntryOfRow(rows, d, body);
    }
  }

  lemma EntryOfRow(rows: seq<Row>, d: NaiveDate, body: string)
    ensures (d, body) in Sift(ReadRow, rows) <==> Row(ToIso(d), body) in rows
  {
    SiftHas(ReadRow, rows, (d, body));
    ParseIsoIff(ToIso(d), d);
    if row :| row in rows && ReadRow(row) == Some((d, body)) { ParseIsoIff(row.text, d); }
    if Row(ToIso(d), body) in rows { assert ReadRow(Row(ToIso(d), body)) == Some((d, body)); }
  }

  lemma EntriesAscend(table: Table, user: UserId, from: NaiveDate, to: NaiveDate, rows: seq<Row>)
    requires Answers(table, user, ToIso(from), ToIso(to), rows) && Selectable(from, to)
    ensures forall i, j :: 0 <= i < j < |Sift(ReadRow, rows)| ==> Before(Sift(ReadRow, rows)[i].0, Sift(ReadRow, rows)[j].0)
  {
    var entries := Sift(ReadRow, rows);
    EntriesOfRows(table, user, from, to, rows);
    SelectableIsExact(from, to);
    forall i, j | 0 <= i < j < |entries| ensures Before(entries[i].0, entries[j].0) {
      var k, l := SiftKeepsOrder(ReadRow, rows, i, j);
      ParseIsoIff(rows[k].text, entries[i].0);
      ParseIsoIff(rows[l].text, entries[j].0);
      assert (entries[i].0, entries[i].1) in entries && (entries[j].0, entries[j].1) in entries;
      RangeSorts(from, to, entries[i].0, entries[j].0);
    }
  }

  /** Whatever is stored, whoever asks: the days sent back are the stored days of the range. */
  ghost predicate QueryIsRight(from: NaiveDate, to: NaiveDate) {
    forall table: Table, user: UserId, texts: seq<string>, d: NaiveDate ::
      DateAnswers(table, user, ToIso(from), ToIso(to), texts) ==>
      (d in Sift(ParseIso, texts) <==> Stored(table, user, from, to, d))
  }

  lemma ExactIsRight(from: NaiveDate, to: NaiveDate)
    requires RangeIsExact(from, to)
    ensures QueryIsRight(from, to)
  {
    forall table: Table, user: UserId, texts: seq<string>, d: NaiveDate
      | DateAnswers(table, user, ToIso(from), ToIso(to), texts)
      ensures d in Sift(ParseIso, texts) <==> Stored(table, user, from, to, d)
    {
      DaysOfTexts(table, user, from, to, texts);
      assert TextBetween(from, to, d) <==> DayBetween(from, to, d);
    }
  }

  lemma OneRowAnswers(day: string, from: string, to: string, table: Table)
    requires table == map[(0, day) := ""]
    ensures DateAnswers(table, 0, from, to, if TextNotAfter(from, day) && TextNotAfter(day, to) then [day] else [])
  {}

  /** One stored day on which texts and days disagree is enough. */
  lemma InexactIsWrong(from: NaiveDate, to: NaiveDate, d: NaiveDate)
    requires TextBetween(from, to, d) != DayBetween(from, to, d)
    ensures !QueryIsRight(from, to)
  {
    var table: Table := map[(0, ToIso(d)) := ""];
    OneRowAnswers(ToIso(d), ToIso(from), ToIso(to), table);
    var texts := if TextBetween(from, to, d) then [ToIso(d)] else [];
    DaysOfTexts(table, 0, from, to, texts);
    assert Stored(table, 0, from, to, d) <==> DayBetween(from, to, d);
  }

  /** The range query is right for every table exactly when texts can select between its ends. */
  lemma DatesInRangeIff(from: NaiveDate, to: NaiveDate)
    requires NotAfter(from, to)
    ensures QueryIsRight(from, to) <==> Selectable(from, to)
  {
    RangeIsExactIff(from, to);
    if RangeIsExact(from, to) {
      ExactIsRight(from, to);
    } else {
      var d: NaiveDate :| TextBetween(from, to, d) != DayBetween(from, to, d);
      InexactIsWrong(from, to, d);
    }
  }

  /** Saving replaces that day of that user and disturbs no other: load reads the last save back. */
  lemma LoadAfterSave(table: Table, user: UserId, date: NaiveDate, body: string, other: UserId, day: NaiveDate)
    ensures var saved := table[(user, ToIso(date)) := body];
      && ((other, ToIso(day)) in saved <==> (other, ToIso(day)) in table || (other == user && day == date))
      && ((other, ToIso(day)) in saved ==>
            saved[(other, ToIso(day))] == if other == user && day == date then body else table[(other, ToIso(day))])
  {
    ToIsoIsInjective(date, day);
  }

  // ----------------------------------------------------------- the request

  function DaysBetween(from: Date, to: Date): int {
    DayNumber(to) - DayNumber(from)
  }

  function ParseRange(from: string, to: string): Result<(NaiveDate, NaiveDate), RangeError> {
    match (ParseIso(from), ParseIso(to))
    case (Some(f), Some(t)) =>
      if Before(t, f) then Err(InvalidRange)
      else if DaysBetween(f, t) > MAX_RANGE_DAYS then Err(TooWide)
      else Ok((f, t))
    case _ => Err(InvalidDate)
  }

  /** Accepted exactly when both ends are the texts of days, in order and not more than 366 days apart. */
  lemma ParseRangeIff(from: string, to: string, f: NaiveDate, t: NaiveDate)
    ensures ParseRange(from, to) == Ok((f, t)) <==>
            from == ToIso(f) && to == ToIso(t) && 0 <= DaysBetween(f, t) <= 366
  {
    ParseIsoIff(from, f);
    ParseIsoIff(to, t);
    OrderIsCount(t, f);
  }

  /** So many days, of which the library has both ends: accepted, and otherwise refused. */
  lemma ShortRangeIff(f: Date, t: Date)
    requires 0 <= DaysBetween(f, t) <= MAX_RANGE_DAYS
    ensures ParseRange(ToIso(f), ToIso(t)) == (if InLibrary(f) && InLibrary(t) then Ok((f, t)) else Err(InvalidDate))
  {
    if InLibrary(f) && InLibrary(t) {
      ParseRangeIff(ToIso(f), ToIso(t), f, t);
    } else {
      UnreadableDay(f);
      UnreadableDay(t);
    }
  }

  lemma UnreadableDay(d: Date)
    ensures ParseIso(ToIso(d)) == if InLibrary(d) then Some(d) else None
  {
    ParseIsoIff(ToIso(d), d);
    if ParseIso(ToIso(d)).Some? { ToIsoIsInjective(ParseIso(ToIso(d)).value, d); }
  }

  /** The week page always asks for a range that is accepted, but for a week that leaves the library ... */
  lemma WeeksAreAccepted(d: Date)
    ensures var (a, b) := WeekBounds(d);
            ParseRange(ToIso(a), ToIso(b)) == if InLibrary(a) && InLibrary(b) then Ok((a, b)) else Err(InvalidDate)
  {
    var (a, b) := WeekBounds(d);
    WeekSpans(d, a, b);
    ShortRangeIff(a, b);
  }

  lemma WeekSpans(d: Date, a: Date, b: Date)
    requires (a, b) == WeekBounds(d)
    ensures DaysBetween(a, b) == 6
  {
    WeekBoundsCount(d);
  }

  /** ... and so does the month popover, which never leaves it. */
  lemma MonthsAreAccepted(d: NaiveDate)
    ensures var (a, b) := MonthBounds(d); ParseRange(ToIso(a), ToIso(b)) == Ok((a, b))
  {
    MonthBoundsAre(d);
    var (a, b) := MonthBounds(d);
    ShortRangeIff(a, b);
  }

  /** The day a sign appears: the range over it is accepted, and not even its first day is selected. */
  lemma AcrossTheSign(from: NaiveDate, to: NaiveDate)
    requires to == Next(from) && Plain(from) && to.year > 9999
    ensures ParseRange(ToIso(from), ToIso(to)) == Ok((from, to))
    ensures DayBetween(from, to, from) && !TextBetween(from, to, from)
  {
    NextCounts(from);
    ShortRangeIff(from, to);
    DateText.OtherSignOrder(to, from);
    TextTotal(ToIso(to), ToIso(from));
  }

  lemma NewYear10000(from: NaiveDate, to: NaiveDate)
    requires from == Ymd(9999, 12, 31) && to == Ymd(10000, 1, 1)
    ensures to == Next(from) && Plain(from) && to.year > 9999
  {}

  /** New Year's Eve of 9999 and the day after. */
  lemma LongYearsExample(from: NaiveDate, to: NaiveDate)
    requires from == Ymd(9999, 12, 31) && to == Ymd(10000, 1, 1)
    ensures ParseRange(ToIso(from), ToIso(to)) == Ok((from, to))
    ensures DayBetween(from, to, from) && !TextBetween(from, to, from)
  {
    NewYear10000(from, to);
    AcrossTheSign(from, to);
  }
}
