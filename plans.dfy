/** The meal plan of a week (class `Mensaplan`): the requested dates, one
    `Weekday` bucket per fetched date in the order the dates were first
    fetched, and the two renderings of the whole plan. */
module Plans {
  import opened Wrappers
  import opened Errors
  import Text
  import opened Calendar
  import opened Meals
  import opened Days
  import opened Weeks
  import opened Rows

  /** The address the plan is posted to; images are relative to its
      directory. */
  const URL_DIR := "https://stwno.de/infomax/daten-extern/html/"
  const URL_PAGE := "speiseplan-render.php"
  const URL := URL_DIR + URL_PAGE

  /** The image base URL of the fixed plan URL is its directory: the
      ValueError branch of `get_with_images` cannot happen for it. */
  lemma UrlBase()
    ensures BaseUrl(URL) == Some(URL_DIR)
  {
    var k := |URL_DIR| - 1;
    assert URL_DIR[k] == '/';
    assert URL[k] == '/';
    assert URL[k + 1..] == URL_PAGE;
    assert '/' !in URL_PAGE;
    var r := Text.LastIndexOf(URL, '/');
    assert r.Some? && r.value == k by {
      assert '/' in URL;
    }
    assert URL[..k + 1] == URL_DIR;
  }

  const WEEKDAY_NAMES: seq<string> :=
    ["Montag", "Dienstag", "Mittwoch", "Donnerstag", "Freitag", "Samstag", "Sonntag"]

  /** `weekdays[d.weekday()]`. */
  function WeekdayName(d: Date): (r: string)
    ensures r == WEEKDAY_NAMES[DayOfWeek(d)]
    ensures |r| > 0 && r[0] != ' ' && r[0] != '#' && '\n' !in r
  {
    var k := DayOfWeek(d);
    assert WEEKDAY_NAMES[k][0] != ' ' && WEEKDAY_NAMES[k][0] != '#' && '\n' !in WEEKDAY_NAMES[k] by {
      assert k == 0 || k == 1 || k == 2 || k == 3 || k == 4 || k == 5 || k == 6;
    }
    WEEKDAY_NAMES[k]
  }

  // ---------------------------------------------------------------------
  // Renderings of the whole plan, as lists of lines

  /** The heading of a day in the Markdown: `# <weekday> (dd.mm.yyyy)`. */
  function MarkdownHeading(d: Date): string {
    "# " + WeekdayName(d) + " (" + FormatDate(d) + ")"
  }

  /** The heading of a day in the text: `<weekday>:`. */
  function TextHeading(d: Date): string {
    WeekdayName(d) + ":"
  }

  /** One stored day in the Markdown: its heading, its tables, and the empty
      line that the extra "\n" after the day's text makes. */
  function MarkdownBlock(plan: map<Date, Buckets>, d: Date): seq<string> {
    [MarkdownHeading(d)] + (if d in plan then MarkdownLines(plan[d]) else []) + [""]
  }

  function MarkdownBlocks(plan: map<Date, Buckets>): Date -> seq<string> {
    (d: Date) => MarkdownBlock(plan, d)
  }

  /** The lines of `Mensaplan.to_markdown_str`: each stored day in order. */
  function PlanMarkdownLines(order: seq<Date>, plan: map<Date, Buckets>): seq<string> {
    Text.Blocks(order, MarkdownBlocks(plan))
  }

  function TextBlock(plan: map<Date, Buckets>, d: Date): seq<string> {
    [TextHeading(d)] + (if d in plan then TextLines(plan[d]) else []) + [""]
  }

  function TextBlocks(plan: map<Date, Buckets>): Date -> seq<string> {
    (d: Date) => TextBlock(plan, d)
  }

  /** The lines of `Mensaplan.__str__`: each stored day in order. */
  function PlanTextLines(order: seq<Date>, plan: map<Date, Buckets>): seq<string> {
    Text.Blocks(order, TextBlocks(plan))
  }

  /** The day headings a reader finds in the Markdown. */
  predicate IsDayHeading(l: string) {
    |l| >= 2 && l[0] == '#' && l[1] == ' '
  }

  /** The day headings a reader finds in the text: the only lines that are
      not indented. */
  predicate IsTextHeading(l: string) {
    |l| >= 1 && l[0] != ' '
  }

  lemma MarkdownSectionNoHeading(title: string, meals: seq<Meal>)
    ensures forall i :: 0 <= i < |MarkdownSection(title, meals)| ==> !IsDayHeading(MarkdownSection(title, meals)[i])
  {
    var rows := MarkdownRows(meals);
    assert forall i :: 0 <= i < |rows| ==> rows[i][0] == '|';
    assert forall i :: 0 <= i < |TableHeader()| ==> TableHeader()[i][0] == '|';
  }

  /** No line of a day's Markdown is a day heading. */
  lemma MarkdownLinesNoHeading(b: Buckets)
    ensures Text.Filter(MarkdownLines(b), IsDayHeading) == []
  {
    var s1 := MarkdownSection("Suppen", b.suppen);
    var s2 := MarkdownSection("Beilagen", b.beilagen);
    var s3 := MarkdownSection("Hauptspeisen", b.hauptspeisen);
    var s4 := MarkdownSection("Nachspeisen", b.nachspeisen);
    Text.FilterAppend4(s1, s2, s3, s4, IsDayHeading);
    MarkdownSectionNoHeading("Suppen", b.suppen);
    Text.FilterNone(s1, IsDayHeading);
    MarkdownSectionNoHeading("Beilagen", b.beilagen);
    Text.FilterNone(s2, IsDayHeading);
    MarkdownSectionNoHeading("Hauptspeisen", b.hauptspeisen);
    Text.FilterNone(s3, IsDayHeading);
    MarkdownSectionNoHeading("Nachspeisen", b.nachspeisen);
    Text.FilterNone(s4, IsDayHeading);
  }

  lemma TextSectionIndented(title: string, meals: seq<Meal>)
    ensures forall i :: 0 <= i < |TextSection(title, meals)| ==> !IsTextHeading(TextSection(title, meals)[i])
  {
    var rows := TextRows(meals);
    assert forall i :: 0 <= i < |rows| ==> rows[i][0] == ' ';
    assert TextTitle(title)[0] == ' ';
  }

  /** Every line of a day's text is indented. */
  lemma TextLinesNoHeading(b: Buckets)
    ensures Text.Filter(TextLines(b), IsTextHeading) == []
  {
    var s1 := TextSection("Suppen", b.suppen);
    var s2 := TextSection("Beilagen", b.beilagen);
    var s3 := TextSection("Hauptspeisen", b.hauptspeisen);
    var s4 := TextSection("Nachspeisen", b.nachspeisen);
    Text.FilterAppend4(s1, s2, s3, s4, IsTextHeading);
    TextSectionIndented("Suppen", b.suppen);
    Text.FilterNone(s1, IsTextHeading);
    TextSectionIndented("Beilagen", b.beilagen);
    Text.FilterNone(s2, IsTextHeading);
    TextSectionIndented("Hauptspeisen", b.hauptspeisen);
    Text.FilterNone(s3, IsTextHeading);
    TextSectionIndented("Nachspeisen", b.nachspeisen);
    Text.FilterNone(s4, IsTextHeading);
  }

  /** A heading line filtered out of a block of three parts. */
  lemma FilterFramed(h: string, lines: seq<string>, p: string -> bool)
    requires p(h) && !p("") && Text.Filter(lines, p) == []
    ensures Text.Filter([h] + lines + [""], p) == [h]
  {
    Text.FilterAppend([h] + lines, [""], p);
    Text.FilterAppend([h], lines, p);
    var none: seq<string> := [];
    assert [h][..0] == none && [""][..0] == none;
  }

  lemma MarkdownHeadingShape(d: Date)
    ensures IsDayHeading(MarkdownHeading(d))
  {
  }

  lemma TextHeadingShape(d: Date)
    ensures IsTextHeading(TextHeading(d))
  {
  }

  /** The Markdown of the plan has one heading per stored day, in the order
      the days were first fetched, and no other line starting with "# ". */
  lemma PlanMarkdownHeadings(order: seq<Date>, plan: map<Date, Buckets>)
    ensures Text.Filter(PlanMarkdownLines(order, plan), IsDayHeading) == Text.MapHeads(order, MarkdownHeading)
  {
    forall i | 0 <= i < |order|
      ensures Text.Filter(MarkdownBlocks(plan)(order[i]), IsDayHeading) == [MarkdownHeading(order[i])]
    {
      var d := order[i];
      MarkdownHeadingShape(d);
      if d in plan {
        MarkdownLinesNoHeading(plan[d]);
        FilterFramed(MarkdownHeading(d), MarkdownLines(plan[d]), IsDayHeading);
      } else {
        FilterFramed(MarkdownHeading(d), [], IsDayHeading);
      }
    }
    Text.FilterBlocks(order, MarkdownBlocks(plan), IsDayHeading, MarkdownHeading);
  }

  /** The text of the plan has one unindented line per stored day, in the
      order the days were first fetched. */
  lemma PlanTextHeadings(order: seq<Date>, plan: map<Date, Buckets>)
    ensures Text.Filter(PlanTextLines(order, plan), IsTextHeading) == Text.MapHeads(order, TextHeading)
  {
    forall i | 0 <= i < |order|
      ensures Text.Filter(TextBlocks(plan)(order[i]), IsTextHeading) == [TextHeading(order[i])]
    {
      var d := order[i];
      TextHeadingShape(d);
      if d in plan {
        TextLinesNoHeading(plan[d]);
        FilterFramed(TextHeading(d), TextLines(plan[d]), IsTextHeading);
      } else {
        FilterFramed(TextHeading(d), [], IsTextHeading);
      }
    }
    Text.FilterBlocks(order, TextBlocks(plan), IsTextHeading, TextHeading);
  }

  /** One pass of `Mensaplan.to_markdown_str`'s loop: the heading line, then
      the day's Markdown and a line break. */
  lemma MarkdownDayStep(order: seq<Date>, plan: map<Date, Buckets>, i: nat, res: string, md: string)
    requires i < |order| && order[i] in plan
    requires res == Text.JoinLines(Text.Blocks(order[..i], MarkdownBlocks(plan)))
    requires md == Text.JoinLines(MarkdownLines(plan[order[i]]))
    ensures res + (MarkdownHeading(order[i]) + "\n") + (md + "\n")
      == Text.JoinLines(Text.Blocks(order[..i + 1], MarkdownBlocks(plan)))
  {
    var d := order[i];
    Text.JoinFramed(MarkdownHeading(d), MarkdownLines(plan[d]));
    Text.JoinBlocksStep(order, MarkdownBlocks(plan), i, res, MarkdownHeading(d) + "\n", md + "\n");
  }

  lemma TextDayStep(order: seq<Date>, plan: map<Date, Buckets>, i: nat, res: string, txt: string)
    requires i < |order| && order[i] in plan
    requires res == Text.JoinLines(Text.Blocks(order[..i], TextBlocks(plan)))
    requires txt == Text.JoinLines(TextLines(plan[order[i]]))
    ensures res + (TextHeading(order[i]) + "\n") + (txt + "\n")
      == Text.JoinLines(Text.Blocks(order[..i + 1], TextBlocks(plan)))
  {
    var d := order[i];
    Text.JoinFramed(TextHeading(d), TextLines(plan[d]));
    Text.JoinBlocksStep(order, TextBlocks(plan), i, res, TextHeading(d) + "\n", txt + "\n");
  }

  /** No date occurs twice. */
  predicate Distinct(s: seq<Date>) {
    forall i, j :: 0 <= i < j < |s| ==> s[i] != s[j]
  }

  /** Each date has a `Weekday` object of its own. */
  predicate Injective(m: map<Date, Weekday>) {
    forall d, e :: d in m && e in m && d != e ==> m[d] != m[e]
  }

  /** Two maps that differ at most at `k`, where the first holds `v`. */
  lemma MapUpdate<K, V>(m: map<K, V>, m0: map<K, V>, k: K, v: V)
    requires k in m && m[k] == v
    requires forall d :: d in m <==> d in m0 || d == k
    requires forall d :: d in m0 && d != k ==> m[d] == m0[d]
    ensures m == m0[k := v]
  {
  }

  /** Storing back the value a map already holds changes nothing. */
  lemma UpdateSame<K, V>(m: map<K, V>, k: K)
    requires k in m
    ensures m[k := m[k]] == m
  {
  }

  lemma UpdateTwice<K, V>(m: map<K, V>, k: K, v: V, w: V)
    ensures m[k := v][k := w] == m[k := w]
  {
  }

  /** The row loop of `get_with_images`, filing meals into the one bucket
      `day`; `current_meal_type` starts out empty. */
  method ScanRows(day: Weekday, rows: seq<Row>, base: string) returns (outcome: Outcome<Error>)
    modifies day
    ensures
      var run := RunRows(Scan(old(day.Contents()), ""), rows, base);
      day.Contents() == run.buckets && outcome == run.outcome
  {
    ghost var start := day.Contents();
    var mealType := "";
    var i := 0;
    while i < |rows|
      invariant 0 <= i <= |rows|
      invariant RunRows(Scan(start, ""), rows, base) == RunRows(Scan(day.Contents(), mealType), rows[i..], base)
    {
      var row := rows[i];
      assert rows[i..] == [row] + rows[i + 1..];
      if row.classes != [] {
        if GROUP_HEADER in row.classes {
          if row.cells == [] {
            return Fail(NoCell);
          }
          mealType := row.cells[0].text;
        }
        if MEAL_ROW in row.classes {
          var meal := MealOfRow(row, base);
          if meal.Failure? {
            return Fail(meal.error);
          }
          outcome := day.AddMeal(meal.value, mealType);
          if outcome.Fail? {
            return;
          }
        }
      }
      i := i + 1;
    }
    assert rows[i..] == [];
    outcome := Pass;
  }

  // ---------------------------------------------------------------------
  // The plan object

  class Mensaplan {
    const url: string
    /** The five dates of the requested week. */
    const weekdays: seq<Date>
    /** The dates to fetch. */
    var dates: seq<Date>
    /** `self.days`: its keys, and `order`, the order they were inserted in. */
    var days: map<Date, Weekday>
    var order: seq<Date>

    ghost predicate Valid()
      reads this
    {
      && |weekdays| == 5
      && Distinct(order)
      && (forall d :: d in days <==> d in order)
      && Injective(days)
    }

    /** What is stored for each fetched date. */
    ghost function Plan(): map<Date, Buckets>
      reads this, days.Values
    {
      map d | d in days :: days[d].Contents()
    }

    constructor (weekdays: seq<Date>, dates: seq<Date>)
      requires |weekdays| == 5
      ensures this.url == URL && this.weekdays == weekdays && this.dates == dates
      ensures days == map[] && order == []
      ensures Valid()
    {
      this.url := URL;
      this.weekdays := weekdays;
      this.dates := dates;
      days := map[];
      order := [];
    }

    /** `Mensaplan(calendar_week, today)` on the day `today`, whose ISO week
        number is `isoWeek`: the week's dates, or just today's. */
    static method Create(today: Date, isoWeek: int, calendarWeek: Option<int>, todayOnly: bool)
      returns (r: Result<Mensaplan, Error>)
      ensures
        var week := if calendarWeek.Some? then calendarWeek.value else isoWeek;
        match GetWeekdays(today, week)
        case Failure(e) => r == Failure(e)
        case Success(ws) =>
          && r.Success? && fresh(r.value) && r.value.Valid()
          && r.value.url == URL && r.value.weekdays == ws
          && r.value.dates == (if todayOnly then [today] else ws)
          && r.value.days == map[] && r.value.order == []
    {
      var week := if calendarWeek.Some? then calendarWeek.value else isoWeek;
      var ws :- GetWeekdays(today, week);
      var dates := ws;
      if todayOnly {
        dates := [today];
      }
      var plan := new Mensaplan(ws, dates);
      return Success(plan);
    }

    /** `select_single_weekday(day)`: Python indexing, so -5 .. -1 count from
        Friday backwards; any other index raises IndexError and keeps the
        dates. */
    method SelectSingleWeekday(day: int) returns (outcome: Outcome<Error>)
      modifies this
      ensures -|weekdays| <= day < |weekdays| ==>
        outcome == Pass && dates == [weekdays[if day < 0 then day + |weekdays| else day]]
      ensures !(-|weekdays| <= day < |weekdays|) ==>
        outcome == Fail(IndexOutOfRange) && dates == old(dates)
      ensures days == old(days) && order == old(order)
    {
      if day < -|weekdays| || day >= |weekdays| {
        return Fail(IndexOutOfRange);
      }
      var k := if day < 0 then day + |weekdays| else day;
      dates := [weekdays[k]];
      outcome := Pass;
    }

    /** `self.days[date]`, created (with its `dd.mm.yyyy` date) and
        stored first when the date has no entry yet. */
    method DayFor(date: Date) returns (day: Weekday)
      requires Valid()
      modifies this
      ensures Valid() && dates == old(dates)
      ensures order == old(order) + (if date in old(days) then [] else [date])
      ensures days == old(days)[date := day]
      ensures date in old(days) ==> day == old(days[date])
      ensures date !in old(days) ==> fresh(day)
      ensures Plan() == old(Plan())[date := if date in old(Plan()) then old(Plan())[date] else EMPTY]
    {
      if date in days {
        day := days[date];
        assert days == old(days)[date := day];
        UpdateSame(Plan(), date);
        return;
      }
      ghost var before := Plan();
      day := new Weekday(date);
      assert forall d :: d in days ==> days[d] != day;
      assert date !in order;
      days := days[date := day];
      order := order + [date];
      MapUpdate(Plan(), before, date, EMPTY);
    }

    /** `get_with_images(date)` once the page has been fetched and parsed
        into `rows`: the date's bucket is created when absent and reused
        otherwise, then the rows are run through the loop. Only that one
        bucket changes. */
    method GetWithImages(date: Date, rows: seq<Row>) returns (outcome: Outcome<Error>)
      requires Valid()
      modifies this, days.Values
      ensures Valid() && dates == old(dates)
      ensures BaseUrl(url).None? ==>
        outcome == Fail(SeparatorNotFound) && days == old(days) && order == old(order)
        && Plan() == old(Plan())
      ensures BaseUrl(url).Some? ==>
        && order == old(order) + (if date in old(days) then [] else [date])
        && days == old(days)[date := days[date]]
        && (date in old(days) ==> days[date] == old(days[date]))
        && (date !in old(days) ==> fresh(days[date]))
        && var start := if date in old(Plan()) then old(Plan())[date] else EMPTY;
           var run := RunRows(Scan(start, ""), rows, BaseUrl(url).value);
           && Plan() == old(Plan())[date := run.buckets]
           && outcome == run.outcome
    {
      var base := BaseUrl(url);
      if base.None? {
        return Fail(SeparatorNotFound);
      }
      ghost var before := Plan();
      ghost var start := if date in before then before[date] else EMPTY;
      var day := DayFor(date);
      ghost var mid := Plan();
      assert day.Contents() == start by {
        assert mid[date] == day.Contents();
      }
      outcome := ScanRows(day, rows, base.value);
      forall d | d in mid && d != date
        ensures Plan()[d] == mid[d]
      {
        assert days[d] != day;
      }
      assert Plan() == before[date := day.Contents()] by {
        MapUpdate(Plan(), mid, date, day.Contents());
        UpdateTwice(before, date, start, day.Contents());
      }
    }

    /** `Mensaplan.to_markdown_str`: every stored day, in insertion order,
        under its heading. */
    method ToMarkdownStr() returns (res: string)
      requires Valid()
      ensures res == Text.JoinLines(PlanMarkdownLines(order, Plan()))
    {
      ghost var plan := Plan();
      res := "";
      var i := 0;
      while i < |order|
        invariant 0 <= i <= |order|
        invariant res == Text.JoinLines(Text.Blocks(order[..i], MarkdownBlocks(plan)))
        invariant Plan() == plan
      {
        var d := order[i];
        var day := days[d];
        assert d in plan && plan[d] == day.Contents();
        var md := day.ToMarkdownStr();
        MarkdownDayStep(order, plan, i, res, md);
        res := res + (MarkdownHeading(d) + "\n") + (md + "\n");
        i := i + 1;
      }
      assert order[..i] == order;
    }

    /** `Mensaplan.__str__`. */
    method ToStr() returns (res: string)
      requires Valid()
      ensures res == Text.JoinLines(PlanTextLines(order, Plan()))
    {
      ghost var plan := Plan();
      res := "";
      var i := 0;
      while i < |order|
        invariant 0 <= i <= |order|
        invariant res == Text.JoinLines(Text.Blocks(order[..i], TextBlocks(plan)))
        invariant Plan() == plan
      {
        var d := order[i];
        var day := days[d];
        assert d in plan && plan[d] == day.Contents();
        var txt := day.ToStr();
        TextDayStep(order, plan, i, res, txt);
        res := res + (TextHeading(d) + "\n") + (txt + "\n");
        i := i + 1;
      }
      assert order[..i] == order;
    }
  }
}
