/**
 A week's totals from its days' texts. The parser is any function from a text
 to its minutes and projects; the hash map is walked in any order.
 */
module WeekTotals {
  import opened Dates
  import opened TextOrder

  datatype Project = Project(name: string, minutes: nat)

  datatype Parsed = Parsed(totalMinutes: nat, projects: seq<Project>)

  datatype WeekTotals = WeekTotals(totalMinutes: nat, perDay: seq<(Date, nat)>, perProject: seq<Project>)

  type Parser = string -> Parsed

  type Rows = seq<(Date, string)>

  // --------------------------------------------------------------- sorting

  /** A stable sort: an element goes in front of those it may precede. */
  function InsertBy<T>(le: (T, T) -> bool, x: T, s: seq<T>): seq<T> {
    if s == [] || le(x, s[0]) then [x] + s else [s[0]] + InsertBy(le, x, s[1..])
  }

  function SortBy<T>(le: (T, T) -> bool, s: seq<T>): seq<T> {
    if s == [] then [] else InsertBy(le, s[0], SortBy(le, s[1..]))
  }

  ghost predicate IsOrder<T(!new)>(le: (T, T) -> bool) {
    && (forall a, b :: le(a, b) || le(b, a))
    && (forall a, b, c :: le(a, b) && le(b, c) ==> le(a, c))
  }

  ghost predicate Ascends<T>(le: (T, T) -> bool, s: seq<T>) {
    forall i, j :: 0 <= i < j < |s| ==> le(s[i], s[j])
  }

  lemma {:induction false} InsertKeeps<T(!new)>(le: (T, T) -> bool, x: T, s: seq<T>)
    requires IsOrder(le) && Ascends(le, s)
    ensures multiset(InsertBy(le, x, s)) == multiset{x} + multiset(s)
    ensures Ascends(le, InsertBy(le, x, s))
  {
    if s != [] && !le(x, s[0]) {
      InsertKeeps(le, x, s[1..]);
      var rest := InsertBy(le, x, s[1..]);
      assert s == [s[0]] + s[1..];
      forall j | 0 <= j < |rest| ensures le(s[0], rest[j]) {
        assert rest[j] in multiset{x} + multiset(s[1..]);
      }
      FrontAscends(le, s[0], rest);
    } else if s != [] {
      FrontAscends(le, x, s);
    }
  }

  lemma FrontAscends<T(!new)>(le: (T, T) -> bool, x: T, s: seq<T>)
    requires IsOrder(le) && Ascends(le, s)
    requires (s != [] ==> le(x, s[0])) || forall j :: 0 <= j < |s| ==> le(x, s[j])
    ensures Ascends(le, [x] + s)
  {}

  lemma {:induction false} SortSorts<T(!new)>(le: (T, T) -> bool, s: seq<T>)
    requires IsOrder(le)
    ensures multiset(SortBy(le, s)) == multiset(s) && Ascends(le, SortBy(le, s))
  {
    if s != [] {
      SortSorts(le, s[1..]);
      InsertKeeps(le, s[0], SortBy(le, s[1..]));
      assert s == [s[0]] + s[1..];
    }
  }

  /** Two arrangements of the same elements, each strictly in order, are one. */
  lemma {:induction false} OneStrictOrder<T(!new)>(ahead: (T, T) -> bool, a: seq<T>, b: seq<T>)
    requires Ascends(ahead, a) && Ascends(ahead, b)
    requires forall x, y :: ahead(x, y) ==> !ahead(y, x)
    requires forall x :: x in a <==> x in b
    ensures a == b
  {
    HasFirst(a);
    HasFirst(b);
    if a != [] {
      assert a[0] in b && b != [] && b[0] in a;
      var i :| 0 <= i < |a| && a[i] == b[0];
      var j :| 0 <= j < |b| && b[j] == a[0];
      assert a[0] == b[0];
      forall x ensures x in a[1..] <==> x in b[1..] {
        TailMembers(ahead, a, x);
        TailMembers(ahead, b, x);
      }
      OneStrictOrder(ahead, a[1..], b[1..]);
      assert a == [a[0]] + a[1..] && b == [b[0]] + b[1..];
    }
  }

  lemma HasFirst<T>(s: seq<T>)
    ensures s != [] ==> s[0] in s
  {}

  lemma TailMembers<T(!new)>(ahead: (T, T) -> bool, s: seq<T>, x: T)
    requires s != [] && Ascends(ahead, s)
    requires forall x, y :: ahead(x, y) ==> !ahead(y, x)
    ensures x in s[1..] <==> x in s && x != s[0]
  {
    if x in s[1..] {
      var k :| 0 <= k < |s| - 1 && s[1..][k] == x;
      assert ahead(s[0], s[k + 1]);
    }
  }

  // ------------------------------------------------------------------ sums

  function SumOver<T>(f: T -> nat, s: seq<T>): nat {
    if s == [] then 0 else SumOver(f, s[..|s| - 1]) + f(s[|s| - 1])
  }

  lemma {:induction false} SumWithout<T>(f: T -> nat, s: seq<T>, i: nat)
    requires i < |s|
    ensures SumOver(f, s) == f(s[i]) + SumOver(f, s[..i] + s[i + 1..])
  {
    var rest := s[..i] + s[i + 1..];
    if i < |s| - 1 {
      SumWithout(f, s[..|s| - 1], i);
      assert rest[..|rest| - 1] == s[..|s| - 1][..i] + s[..|s| - 1][i + 1..];
    } else {
      assert rest == s[..|s| - 1];
    }
  }

  lemma SameWithout<T>(rest: seq<T>, x: T, left: seq<T>, right: seq<T>)
    requires multiset(rest + [x]) == multiset(left + [x] + right)
    ensures multiset(rest) == multiset(left + right)
  {
    TakenOut(left, x, right);
    assert multiset(rest) == multiset(rest + [x]) - multiset{x};
  }

  lemma TakenOut<T>(left: seq<T>, x: T, right: seq<T>)
    ensures multiset(left + right) == multiset(left + [x] + right) - multiset{x}
  {
    assert multiset(left + [x] + right) == multiset(left + right) + multiset{x};
  }

  /** A sum does not depend on the order of its terms. */
  lemma {:induction false} SumPermutes<T>(f: T -> nat, a: seq<T>, b: seq<T>)
    requires multiset(a) == multiset(b)
    ensures SumOver(f, a) == SumOver(f, b)
    decreases |a|
  {
    assert |multiset(a)| == |a| && |multiset(b)| == |b|;
    if a != [] {
      var i := WhereLastIs(a, b);
      SumWithout(f, b, i);
      SumPermutes(f, a[..|a| - 1], b[..i] + b[i + 1..]);
    }
  }

  lemma WhereLastIs<T>(a: seq<T>, b: seq<T>) returns (i: nat)
    requires a != [] && multiset(a) == multiset(b)
    ensures i < |b| && b[i] == a[|a| - 1]
    ensures multiset(a[..|a| - 1]) == multiset(b[..i] + b[i + 1..])
  {
    var last := a[|a| - 1];
    assert last in multiset(b);
    i :| 0 <= i < |b| && b[i] == last;
    assert a == a[..|a| - 1] + [last] && b == b[..i] + [last] + b[i + 1..];
    SameWithout(a[..|a| - 1], last, b[..i], b[i + 1..]);
  }

  // --------------------------------------------- what the totals should be

  predicate Contributes(p: Parsed) {
    p.totalMinutes != 0 || p.projects != []
  }

  function MinutesOf(parse: Parser): ((Date, string)) -> nat {
    (row: (Date, string)) => parse(row.1).totalMinutes
  }

  function MinutesFor(projects: seq<Project>, name: string): nat {
    SumOver((p: Project) => if p.name == name then p.minutes else 0, projects)
  }

  function MinutesOn(parse: Parser, name: string): ((Date, string)) -> nat {
    (row: (Date, string)) => MinutesFor(parse(row.1).projects, name)
  }

  function ProjectTotal(parse: Parser, rows: Rows, name: string): nat {
    SumOver(MinutesOn(parse, name), rows)
  }

  predicate Names(projects: seq<Project>, name: string) {
    exists p :: p in projects && p.name == name
  }

  predicate Mentioned(parse: Parser, rows: Rows, name: string) {
    exists row :: row in rows && Names(parse(row.1).projects, name)
  }

  /** The contributing days, in the order of the rows. */
  function DaysOf(parse: Parser, rows: Rows): seq<(Date, nat)> {
    if rows == [] then []
    else
      var before, last := DaysOf(parse, rows[..|rows| - 1]), rows[|rows| - 1];
      if Contributes(parse(last.1)) then before + [(last.0, parse(last.1).totalMinutes)] else before
  }

  predicate DayNotAfter(a: (Date, nat), b: (Date, nat)) {
    NotAfter(a.0, b.0)
  }

  /** Largest first, then by name. */
  predicate Ahead(a: Project, b: Project) {
    a.minutes > b.minutes || (a.minutes == b.minutes && TextBefore(a.name, b.name))
  }

  predicate NotBehind(a: Project, b: Project) {
    !Ahead(b, a)
  }

  ghost predicate IsTotals(parse: Parser, rows: Rows, t: WeekTotals) {
    && t.totalMinutes == SumOver(MinutesOf(parse), rows)
    && t.perDay == SortBy(DayNotAfter, DaysOf(parse, rows))
    && Ascends(Ahead, t.perProject)
    && forall p :: p in t.perProject <==> Mentioned(parse, rows, p.name) && p.minutes == ProjectTotal(parse, rows, p.name)
  }

  // -------------------------------------------------------- the order used

  lemma AheadIsStrict()
    ensures forall a, b :: Ahead(a, b) ==> !Ahead(b, a)
    ensures forall a, b :: a != b && !Ahead(a, b) ==> Ahead(b, a)
  {
    forall a: Project, b: Project ensures Ahead(a, b) ==> !Ahead(b, a) { TextTotal(a.name, b.name); }
    forall a: Project, b: Project | a != b && !Ahead(a, b) ensures Ahead(b, a) { TextTotal(a.name, b.name); }
  }

  lemma AheadTransitive(a: Project, b: Project, c: Project)
    requires Ahead(a, b) && Ahead(b, c)
    ensures Ahead(a, c)
  {
    if a.minutes == b.minutes == c.minutes { TextTransitive(a.name, b.name, c.name); }
  }

  lemma NotBehindIsOrder()
    ensures IsOrder(NotBehind)
  {
    AheadIsStrict();
    forall a, b, c | NotBehind(a, b) && NotBehind(b, c) ensures NotBehind(a, c) {
      if Ahead(c, a) && a != b && b != c {
        AheadTransitive(c, a, b);
      }
    }
  }

  lemma DayNotAfterIsOrder()
    ensures IsOrder(DayNotAfter)
  {}

  // ------------------------------------------------------------ the method

  /** What the map holds after some rows: every mentioned project under its sum so far. */
  ghost predicate MapHolds(parse: Parser, rows: Rows, m: map<string, nat>) {
    forall name :: (name in m <==> Mentioned(parse, rows, name)) && (name in m ==> m[name] == ProjectTotal(parse, rows, name))
  }

  /** Adds one row's projects to the map, one after the other. */
  method AddProjects(m: map<string, nat>, projects: seq<Project>) returns (r: map<string, nat>)
    ensures forall name :: name in r <==> name in m || Names(projects, name)
    ensures forall name :: name in r ==> r[name] == (if name in m then m[name] else 0) + MinutesFor(projects, name)
  {
    r := m;
    for k := 0 to |projects|
      invariant forall name :: name in r <==> name in m || Names(projects[..k], name)
      invariant forall name :: name in r ==> r[name] == (if name in m then m[name] else 0) + MinutesFor(projects[..k], name)
    {
      var p := projects[k];
      assert projects[..k + 1][..k] == projects[..k] && projects[..k + 1][k] == p;
      AppendedNames(projects[..k], p);
      AppendedMinutes(projects[..k], p);
      assert projects[..k + 1] == projects[..k] + [p];
      ghost var before := r;
      NotNamedNoMinutes(projects[..k], p.name);
      r := r[p.name := (if p.name in r then r[p.name] else 0) + p.minutes];
    }
    assert projects[..|projects|] == projects;
  }

  lemma AppendedNames(projects: seq<Project>, p: Project)
    ensures forall name :: Names(projects + [p], name) <==> Names(projects, name) || p.name == name
  {
    forall name ensures Names(projects + [p], name) <==> Names(projects, name) || p.name == name {
      if p.name == name { assert p in projects + [p]; }
      if Names(projects, name) {
        var q :| q in projects && q.name == name;
        assert q in projects + [p];
      }
    }
  }

  lemma AppendedMinutes(projects: seq<Project>, p: Project)
    ensures forall name ::
      MinutesFor(projects + [p], name) == MinutesFor(projects, name) + if p.name == name then p.minutes else 0
  {
    forall name
      ensures MinutesFor(projects + [p], name) == MinutesFor(projects, name) + if p.name == name then p.minutes else 0
    {
      assert (projects + [p])[..|projects|] == projects;
    }
  }

  lemma {:induction false} NotNamedNoMinutes(projects: seq<Project>, name: string)
    ensures !Names(projects, name) ==> MinutesFor(projects, name) == 0
  {
    if projects != [] && !Names(projects, name) {
      var before, last := projects[..|projects| - 1], projects[|projects| - 1];
      assert last in projects && !Names(before, name);
      NotNamedNoMinutes(before, name);
    }
  }

  lemma AppendedRow(parse: Parser, rows: Rows, row: (Date, string))
    ensures forall name ::
      Mentioned(parse, rows + [row], name) <==> Mentioned(parse, rows, name) || Names(parse(row.1).projects, name)
    ensures forall name ::
      ProjectTotal(parse, rows + [row], name) == ProjectTotal(parse, rows, name) + MinutesFor(parse(row.1).projects, name)
    ensures SumOver(MinutesOf(parse), rows + [row]) == SumOver(MinutesOf(parse), rows) + parse(row.1).totalMinutes
    ensures DaysOf(parse, rows + [row]) ==
            DaysOf(parse, rows) + if Contributes(parse(row.1)) then [(row.0, parse(row.1).totalMinutes)] else []
  {
    assert (rows + [row])[..|rows|] == rows;
    forall name
      ensures Mentioned(parse, rows + [row], name) <==> Mentioned(parse, rows, name) || Names(parse(row.1).projects, name)
    {
      MentionedAppended(parse, rows, row, name);
    }
  }

  lemma MentionedAppended(parse: Parser, rows: Rows, row: (Date, string), name: string)
    ensures Mentioned(parse, rows + [row], name) <==> Mentioned(parse, rows, name) || Names(parse(row.1).projects, name)
  {
    if Mentioned(parse, rows, name) {
      var r :| r in rows && Names(parse(r.1).projects, name);
      assert r in rows + [row];
    }
    if Names(parse(row.1).projects, name) { assert row in rows + [row]; }
  }

  /** Every mentioned project once, in whatever order the map is walked. */
  method Collected(m: map<string, nat>) returns (projects: seq<Project>)
    ensures forall p :: p in projects <==> p.name in m && m[p.name] == p.minutes
    ensures forall i, j :: 0 <= i < j < |projects| ==> projects[i] != projects[j]
  {
    projects := [];
    var left := m.Keys;
    while left != {}
      invariant left <= m.Keys
      invariant forall p :: p in projects <==> p.name in m && p.name !in left && m[p.name] == p.minutes
      invariant forall i, j :: 0 <= i < j < |projects| ==> projects[i] != projects[j]
      decreases |left|
    {
      var name :| name in left;
      left := left - {name};
      projects := projects + [Project(name, m[name])];
    }
  }

  lemma SortedProjectsStrictly(projects: seq<Project>)
    requires forall i, j :: 0 <= i < j < |projects| ==> projects[i] != projects[j]
    ensures Ascends(Ahead, SortBy(NotBehind, projects))
    ensures forall p :: p in SortBy(NotBehind, projects) <==> p in projects
  {
    NotBehindIsOrder();
    SortSorts(NotBehind, projects);
    AheadIsStrict();
    var sorted := SortBy(NotBehind, projects);
    forall p ensures p in sorted <==> p in projects {
      assert p in multiset(sorted) <==> p in multiset(projects);
    }
    forall i, j | 0 <= i < j < |sorted| ensures Ahead(sorted[i], sorted[j]) {
      OnceInAll(projects, sorted, i, j);
      assert NotBehind(sorted[i], sorted[j]);
    }
  }

  lemma OnceInAll<T>(a: seq<T>, b: seq<T>, i: nat, j: nat)
    requires multiset(a) == multiset(b) && (forall i, j :: 0 <= i < j < |a| ==> a[i] != a[j]) && i < j < |b|
    ensures b[i] != b[j]
  {
    if b[i] == b[j] {
      assert b == b[..i] + [b[i]] + b[i + 1..j] + [b[j]] + b[j + 1..];
      assert multiset(b)[b[i]] >= 2;
      OnceCounts(a, b[i]);
    }
  }

  lemma {:induction false} OnceCounts<T>(a: seq<T>, x: T)
    requires forall i, j :: 0 <= i < j < |a| ==> a[i] != a[j]
    ensures multiset(a)[x] <= 1
  {
    if a != [] {
      OnceCounts(a[1..], x);
      assert a == [a[0]] + a[1..];
      if a[0] == x { assert x !in a[1..]; }
    }
  }

  method Aggregate(parse: Parser, rows: Rows) returns (t: WeekTotals)
    ensures IsTotals(parse, rows, t)
  {
    var perProject: map<string, nat> := map[];
    var perDay: seq<(Date, nat)> := [];
    var total := 0;
    for k := 0 to |rows|
      invariant total == SumOver(MinutesOf(parse), rows[..k])
      invariant perDay == DaysOf(parse, rows[..k])
      invariant MapHolds(parse, rows[..k], perProject)
    {
      var row := rows[k];
      assert rows[..k + 1] == rows[..k] + [row];
      AppendedRow(parse, rows[..k], row);
      var parsed := parse(row.1);
      ghost var before := perProject;
      if Contributes(parsed) {
        total := total + parsed.totalMinutes;
        perDay := perDay + [(row.0, parsed.totalMinutes)];
        perProject := AddProjects(perProject, parsed.projects);
        MapGrows(parse, rows[..k], row, before, perProject);
      }
    }
    assert rows[..|rows|] == rows;
    var list := Collected(perProject);
    SortedProjectsStrictly(list);
    t := WeekTotals(total, SortBy(DayNotAfter, perDay), SortBy(NotBehind, list));
  }

  lemma MapGrows(parse: Parser, rows: Rows, row: (Date, string), m: map<string, nat>, r: map<string, nat>)
    requires MapHolds(parse, rows, m)
    requires forall name :: name in r <==> name in m || Names(parse(row.1).projects, name)
    requires forall name :: name in r ==> r[name] == (if name in m then m[name] else 0) + MinutesFor(parse(row.1).projects, name)
    ensures MapHolds(parse, rows + [row], r)
  {
    AppendedRow(parse, rows, row);
    forall name | name !in m ensures ProjectTotal(parse, rows, name) == 0 {
      NotMentionedNoMinutes(parse, rows, name);
    }
  }

  lemma {:induction false} NotMentionedNoMinutes(parse: Parser, rows: Rows, name: string)
    ensures !Mentioned(parse, rows, name) ==> ProjectTotal(parse, rows, name) == 0
  {
    if rows != [] && !Mentioned(parse, rows, name) {
      var before, last := rows[..|rows| - 1], rows[|rows| - 1];
      assert last in rows;
      assert !Mentioned(parse, before, name) by {
        assert rows == before + [last];
        MentionedAppended(parse, before, last, name);
      }
      NotMentionedNoMinutes(parse, before, name);
      NotNamedNoMinutes(parse(last.1).projects, name);
    }
  }

  // ------------------------------------------------------------- theorems

  function Second(day: (Date, nat)): nat {
    day.1
  }

  lemma {:induction false} DaysSumToTotal(parse: Parser, rows: Rows)
    ensures SumOver(Second, DaysOf(parse, rows)) == SumOver(MinutesOf(parse), rows)
  {
    if rows != [] {
      DaysSumToTotal(parse, rows[..|rows| - 1]);
    }
  }

  /** The daily minutes add up to the total. */
  lemma DailyMinutesSumToTotal(parse: Parser, rows: Rows, t: WeekTotals)
    requires IsTotals(parse, rows, t)
    ensures SumOver(Second, t.perDay) == t.totalMinutes
  {
    DayNotAfterIsOrder();
    SortSorts(DayNotAfter, DaysOf(parse, rows));
    SumPermutes(Second, t.perDay, DaysOf(parse, rows));
    DaysSumToTotal(parse, rows);
  }

  ghost predicate DistinctDates(rows: Rows) {
    forall i, j :: 0 <= i < j < |rows| ==> rows[i].0 != rows[j].0
  }

  lemma {:induction false} DaysHave(parse: Parser, rows: Rows, day: (Date, nat))
    ensures day in DaysOf(parse, rows) <==>
            exists row :: row in rows && row.0 == day.0 && Contributes(parse(row.1)) && parse(row.1).totalMinutes == day.1
  {
    if rows != [] {
      var before, last := rows[..|rows| - 1], rows[|rows| - 1];
      DaysHave(parse, before, day);
      assert rows == before + [last];
      assert forall row :: row in rows <==> row in before || row == last;
    }
  }

  lemma {:induction false} DaysDistinct(parse: Parser, rows: Rows)
    requires DistinctDates(rows)
    ensures forall i, j :: 0 <= i < j < |DaysOf(parse, rows)| ==> DaysOf(parse, rows)[i].0 != DaysOf(parse, rows)[j].0
  {
    if rows != [] {
      var before, last := rows[..|rows| - 1], rows[|rows| - 1];
      DaysDistinct(parse, before);
      var days := DaysOf(parse, before);
      forall i | 0 <= i < |days| ensures days[i].0 != last.0 {
        assert days[i] in days;
        DaysHave(parse, before, days[i]);
        var row :| row in before && row.0 == days[i].0;
      }
    }
  }

  predicate DayBefore(a: (Date, nat), b: (Date, nat)) {
    Before(a.0, b.0)
  }

  /** One line a contributing day, in date order. */
  lemma PerDayIsChronological(parse: Parser, rows: Rows, t: WeekTotals)
    requires IsTotals(parse, rows, t) && DistinctDates(rows)
    ensures Ascends(DayBefore, t.perDay)
    ensures forall day :: day in t.perDay <==>
              exists row :: row in rows && row.0 == day.0 && Contributes(parse(row.1)) && parse(row.1).totalMinutes == day.1
  {
    var days := DaysOf(parse, rows);
    DayNotAfterIsOrder();
    SortSorts(DayNotAfter, days);
    DaysDistinct(parse, rows);
    forall i, j | 0 <= i < j < |t.perDay| ensures DayBefore(t.perDay[i], t.perDay[j]) {
      SortedDatesDiffer(days, t.perDay, i, j);
    }
    forall day
      ensures day in t.perDay <==>
              exists row :: row in rows && row.0 == day.0 && Contributes(parse(row.1)) && parse(row.1).totalMinutes == day.1
    {
      assert day in multiset(t.perDay) <==> day in multiset(days);
      DaysHave(parse, rows, day);
    }
  }

  /** A day whose text has neither minutes nor projects is left out, and every other day is there. */
  lemma EmptiedDaysAreAbsent(parse: Parser, rows: Rows, t: WeekTotals, row: (Date, string))
    requires IsTotals(parse, rows, t) && DistinctDates(rows) && row in rows
    ensures parse(row.1) == Parsed(0, []) ==> forall minutes: nat :: (row.0, minutes) !in t.perDay
    ensures parse(row.1) != Parsed(0, []) ==> (row.0, parse(row.1).totalMinutes) in t.perDay
  {
    PerDayIsChronological(parse, rows, t);
    forall minutes: nat | (row.0, minutes) in t.perDay ensures parse(row.1) != Parsed(0, []) {
      var other :| other in rows && other.0 == row.0 && Contributes(parse(other.1)) && parse(other.1).totalMinutes == minutes;
      assert other == row;
    }
  }

  /** Projects come with most minutes first, and equals by name. */
  lemma LargestFirst(parse: Parser, rows: Rows, t: WeekTotals, i: nat, j: nat)
    requires IsTotals(parse, rows, t) && i < j < |t.perProject|
    ensures t.perProject[i].minutes >= t.perProject[j].minutes
    ensures t.perProject[i].minutes == t.perProject[j].minutes ==> TextBefore(t.perProject[i].name, t.perProject[j].name)
  {
    assert Ahead(t.perProject[i], t.perProject[j]);
  }

  // ------------------------------------------------- nothing lost or doubled

  function Minutes(p: Project): nat {
    p.minutes
  }

  function ProjectMinutesOf(parse: Parser): ((Date, string)) -> nat {
    (row: (Date, string)) => SumOver(Minutes, parse(row.1).projects)
  }

  /** How much of the first so many rows, or of some projects, falls to each of the names. */
  function ShareOf(parse: Parser, rows: Rows): Project -> nat {
    (p: Project) => ProjectTotal(parse, rows, p.name)
  }

  function PartOf(projects: seq<Project>): Project -> nat {
    (p: Project) => MinutesFor(projects, p.name)
  }

  ghost predicate DistinctNames(lines: seq<Project>) {
    forall i, j :: 0 <= i < j < |lines| ==> lines[i].name != lines[j].name
  }

  ghost predicate Covers(lines: seq<Project>, projects: seq<Project>) {
    forall p :: p in projects ==> Names(lines, p.name)
  }

  lemma {:induction false} SumAdds<T>(f: T -> nat, g: T -> nat, h: T -> nat, s: seq<T>)
    requires forall x :: x in s ==> h(x) == f(x) + g(x)
    ensures SumOver(h, s) == SumOver(f, s) + SumOver(g, s)
  {
    if s != [] { SumAdds(f, g, h, s[..|s| - 1]); }
  }

  lemma {:induction false} SumOfZeros<T>(f: T -> nat, s: seq<T>)
    requires forall x :: x in s ==> f(x) == 0
    ensures SumOver(f, s) == 0
  {
    if s != [] { SumOfZeros(f, s[..|s| - 1]); }
  }

  /** One project's minutes fall to the one line of its name. */
  lemma {:induction false} OneLineGetsIt(lines: seq<Project>, p: Project)
    requires DistinctNames(lines) && Names(lines, p.name)
    ensures SumOver(PartOf([p]), lines) == p.minutes
  {
    var before, last := lines[..|lines| - 1], lines[|lines| - 1];
    PartOfOne(p, last.name);
    if last.name == p.name {
      forall x | x in before ensures PartOf([p])(x) == 0 { PartOfOne(p, x.name); }
      SumOfZeros(PartOf([p]), before);
    } else {
      assert lines == before + [last];
      OneLineGetsIt(before, p);
    }
  }

  lemma PartOfOne(p: Project, name: string)
    ensures MinutesFor([p], name) == if p.name == name then p.minutes else 0
  {
    var f := (q: Project) => if q.name == name then q.minutes else 0;
    assert [p][..0] == [] && SumOver(f, [p]) == SumOver(f, []) + f(p);
  }

  lemma {:induction false} PartsSum(lines: seq<Project>, projects: seq<Project>)
    requires DistinctNames(lines) && Covers(lines, projects)
    ensures SumOver(PartOf(projects), lines) == SumOver(Minutes, projects)
  {
    if projects == [] {
      SumOfZeros(PartOf([]), lines);
    } else {
      var before, last := projects[..|projects| - 1], projects[|projects| - 1];
      PartsSum(lines, before);
      assert last in projects;
      OneLineGetsIt(lines, last);
      forall x | x in lines ensures PartOf(projects)(x) == PartOf(before)(x) + PartOf([last])(x) { PartOfOne(last, x.name); }
      SumAdds(PartOf(before), PartOf([last]), PartOf(projects), lines);
    }
  }

  lemma {:induction false} SharesSum(parse: Parser, rows: Rows, lines: seq<Project>)
    requires DistinctNames(lines) && forall row :: row in rows ==> Covers(lines, parse(row.1).projects)
    ensures SumOver(ShareOf(parse, rows), lines) == SumOver(ProjectMinutesOf(parse), rows)
  {
    if rows == [] {
      SumOfZeros(ShareOf(parse, []), lines);
    } else {
      var before, last := rows[..|rows| - 1], rows[|rows| - 1];
      SharesSum(parse, before, lines);
      assert last in rows;
      PartsSum(lines, parse(last.1).projects);
      SumAdds(ShareOf(parse, before), PartOf(parse(last.1).projects), ShareOf(parse, rows), lines);
    }
  }

  lemma {:induction false} SameSum<T>(f: T -> nat, g: T -> nat, s: seq<T>)
    requires forall x :: x in s ==> f(x) == g(x)
    ensures SumOver(f, s) == SumOver(g, s)
  {
    if s != [] { SameSum(f, g, s[..|s| - 1]); }
  }

  /** The project lines together are all the projects' minutes of all the days: nothing is lost, and nothing counted twice. */
  lemma ProjectLinesSumToAll(parse: Parser, rows: Rows, t: WeekTotals)
    requires IsTotals(parse, rows, t)
    ensures SumOver(Minutes, t.perProject) == SumOver(ProjectMinutesOf(parse), rows)
  {
    NamesAreDistinct(parse, rows, t);
    forall row | row in rows ensures Covers(t.perProject, parse(row.1).projects) {
      forall p | p in parse(row.1).projects ensures Names(t.perProject, p.name) {
        assert Mentioned(parse, rows, p.name);
        assert Project(p.name, ProjectTotal(parse, rows, p.name)) in t.perProject;
      }
    }
    SharesSum(parse, rows, t.perProject);
    SameSum(Minutes, ShareOf(parse, rows), t.perProject);
  }

  lemma NamesAreDistinct(parse: Parser, rows: Rows, t: WeekTotals)
    requires IsTotals(parse, rows, t)
    ensures DistinctNames(t.perProject)
  {
    AheadIsStrict();
    forall i, j | 0 <= i < j < |t.perProject| ensures t.perProject[i].name != t.perProject[j].name {
      assert t.perProject[i] in t.perProject && t.perProject[j] in t.perProject;
      assert Ahead(t.perProject[i], t.perProject[j]);
    }
  }

  lemma SortedDatesDiffer(days: seq<(Date, nat)>, sorted: seq<(Date, nat)>, i: nat, j: nat)
    requires multiset(sorted) == multiset(days) && i < j < |sorted|
    requires forall i, j :: 0 <= i < j < |days| ==> days[i].0 != days[j].0
    ensures sorted[i].0 != sorted[j].0
  {
    OnceInAll(days, sorted, i, j);
    assert sorted[i] in multiset(days) && sorted[j] in multiset(days);
    var a :| 0 <= a < |days| && days[a] == sorted[i];
    var b :| 0 <= b < |days| && days[b] == sorted[j];
    assert a < b || b < a;
  }

  /** Whatever order the map is walked in and the rows come in, the totals are the same. */
  lemma TotalsIgnoreOrder(parse: Parser, a: Rows, b: Rows, s: WeekTotals, t: WeekTotals)
    requires IsTotals(parse, a, s) && IsTotals(parse, b, t)
    requires multiset(a) == multiset(b) && (a == b || (DistinctDates(a) && DistinctDates(b)))
    ensures s == t
  {
    forall row ensures row in a <==> row in b {
      assert row in multiset(a) <==> row in multiset(b);
    }
    SumPermutes(MinutesOf(parse), a, b);
    forall p ensures p in s.perProject <==> p in t.perProject {
      SumPermutes(MinutesOn(parse, p.name), a, b);
    }
    AheadIsStrict();
    OneStrictOrder(Ahead, s.perProject, t.perProject);
    if a != b {
      PerDayIsChronological(parse, a, s);
      PerDayIsChronological(parse, b, t);
      OneStrictOrder(DayBefore, s.perDay, t.perDay);
    }
  }
}
