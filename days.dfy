/** The per-day bucket (class `Weekday`): four ordered lists of meals, filled
    by `add_meal` and rendered as text or as Markdown tables. */
module Days {
  import opened Wrappers
  import opened Errors
  import Text
  import opened Calendar
  import opened Meals

  /** The four sections of a day. */
  datatype Category = Soup | SideDish | MainDish | Dessert

  /** The lower-case group label that files a meal under `c`. */
  function Label(c: Category): string {
    match c
    case Soup => "suppen"
    case SideDish => "beilagen"
    case MainDish => "hauptgerichte"
    case Dessert => "nachspeisen"
  }

  /** The dispatch of `add_meal`: an exact match of the lower-cased label. */
  function Classify(mealType: string): (r: Option<Category>)
    ensures r.Some? ==> Text.Lower(mealType) == Label(r.value)
    ensures r.None? ==> forall c: Category :: Text.Lower(mealType) != Label(c)
  {
    var l := Text.Lower(mealType);
    if l == "hauptgerichte" then Some(MainDish)
    else if l == "beilagen" then Some(SideDish)
    else if l == "suppen" then Some(Soup)
    else if l == "nachspeisen" then Some(Dessert)
    else None
  }

  /** The contents of a `Weekday`, as a value. */
  datatype Buckets = Buckets(
    suppen: seq<Meal>,
    hauptspeisen: seq<Meal>,
    beilagen: seq<Meal>,
    nachspeisen: seq<Meal>)

  const EMPTY := Buckets([], [], [], [])

  function Get(b: Buckets, c: Category): seq<Meal> {
    match c
    case Soup => b.suppen
    case SideDish => b.beilagen
    case MainDish => b.hauptspeisen
    case Dessert => b.nachspeisen
  }

  function Total(b: Buckets): nat {
    |b.suppen| + |b.hauptspeisen| + |b.beilagen| + |b.nachspeisen|
  }

  /** Every list of `a` is a prefix of the same list of `b`: meals are only
      ever appended. */
  ghost predicate Extends(a: Buckets, b: Buckets) {
    forall c: Category :: Get(a, c) <= Get(b, c)
  }

  /** `add_meal` on the value: the meal goes at the end of exactly the list
      its label selects and nothing else changes; any other label, the
      empty one included, is an error that changes nothing. */
  function AddTo(b: Buckets, meal: Meal, mealType: string): (r: Result<Buckets, Error>)
    ensures r.Failure? <==> Classify(mealType).None?
    ensures r.Failure? ==> r.error == UnknownMealType(mealType)
    ensures r.Success? ==>
      var c := Classify(mealType).value;
      && Get(r.value, c) == Get(b, c) + [meal]
      && (forall c' :: c' != c ==> Get(r.value, c') == Get(b, c'))
    ensures r.Success? ==> Total(r.value) == Total(b) + 1 && Extends(b, r.value)
  {
    match Classify(mealType)
    case None => Failure(UnknownMealType(mealType))
    case Some(Soup) => Success(b.(suppen := b.suppen + [meal]))
    case Some(SideDish) => Success(b.(beilagen := b.beilagen + [meal]))
    case Some(MainDish) => Success(b.(hauptspeisen := b.hauptspeisen + [meal]))
    case Some(Dessert) => Success(b.(nachspeisen := b.nachspeisen + [meal]))
  }

  /** The meals in the order both renderers list them. */
  function InSectionOrder(b: Buckets): seq<Meal> {
    b.suppen + b.beilagen + b.hauptspeisen + b.nachspeisen
  }

  // ---------------------------------------------------------------------
  // Markdown rendering (`Weekday.to_markdown_str`), as a list of lines

  /** `get_markdown_table_header`, line by line. */
  function TableHeader(): seq<string> {
    [
    "| Bilder " + "| Name " + "| Studentenpreis " + "| Mitarbeiterpreis " + "| Gästepreis |",
    "|--------" + "|------" + "|----------------" + "|------------------" + "|------------|"
    ]
  }

  /** One table row per meal, in list order. */
  function MarkdownRows(meals: seq<Meal>): (r: seq<string>)
    ensures |r| == |meals|
    ensures forall i :: 0 <= i < |meals| ==> r[i] == ToMarkdown(meals[i])
  {
    if meals == [] then []
    else MarkdownRows(meals[..|meals| - 1]) + [ToMarkdown(meals[|meals| - 1])]
  }

  /** A section title of the Markdown form: a level-2 heading. */
  function MarkdownTitle(title: string): string {
    "## " + title
  }

  function MarkdownSection(title: string, meals: seq<Meal>): seq<string> {
    [MarkdownTitle(title)] + TableHeader() + MarkdownRows(meals)
  }

  /** The lines of a day's Markdown: Suppen, Beilagen, Hauptspeisen,
      Nachspeisen, each with a title and the two-line table header. */
  function MarkdownLines(b: Buckets): seq<string> {
    MarkdownSection("Suppen", b.suppen) + MarkdownSection("Beilagen", b.beilagen)
      + MarkdownSection("Hauptspeisen", b.hauptspeisen) + MarkdownSection("Nachspeisen", b.nachspeisen)
  }

  predicate IsSectionTitle(l: string) {
    |l| >= 3 && l[0] == '#' && l[1] == '#' && l[2] == ' '
  }

  predicate IsMealRow(l: string) {
    |l| >= 2 && l[0] == '|' && l[1] == '<'
  }

  lemma {:induction false} MarkdownRowsAppend(a: seq<Meal>, b: seq<Meal>)
    ensures MarkdownRows(a + b) == MarkdownRows(a) + MarkdownRows(b)
    decreases |b|
  {
    if b == [] {
      assert a + b == a;
    } else {
      var n := |b| - 1;
      assert (a + b)[..|a + b| - 1] == a + b[..n];
      assert (a + b)[|a + b| - 1] == b[n];
      MarkdownRowsAppend(a, b[..n]);
    }
  }

  /** Neither header line is a section title or a meal row. */
  lemma TableHeaderShape()
    ensures forall i :: 0 <= i < |TableHeader()| ==> !IsSectionTitle(TableHeader()[i]) && !IsMealRow(TableHeader()[i])
    ensures SingleLines(TableHeader())
  {
  }

  lemma MarkdownSectionShape(title: string, meals: seq<Meal>)
    ensures Text.Filter(MarkdownSection(title, meals), IsSectionTitle) == [MarkdownTitle(title)]
    ensures Text.Filter(MarkdownSection(title, meals), IsMealRow) == MarkdownRows(meals)
  {
    SectionTitleFilter(title, meals);
    SectionRowFilter(title, meals);
  }

  lemma SectionTitleFilter(title: string, meals: seq<Meal>)
    ensures Text.Filter(MarkdownSection(title, meals), IsSectionTitle) == [MarkdownTitle(title)]
  {
    var t := [MarkdownTitle(title)];
    var rows := MarkdownRows(meals);
    var head := t + TableHeader();
    assert Text.Filter(head, IsSectionTitle) == t by {
      TableHeaderShape();
      Text.FilterNone(TableHeader(), IsSectionTitle);
      assert Text.Filter(t, IsSectionTitle) == t by {
        assert t[..0] == [];
      }
      Text.FilterAppend(t, TableHeader(), IsSectionTitle);
    }
    assert Text.Filter(rows, IsSectionTitle) == [] by {
      assert forall i :: 0 <= i < |rows| ==> rows[i][0] == '|';
      Text.FilterNone(rows, IsSectionTitle);
    }
    Text.FilterAppend(head, rows, IsSectionTitle);
  }

  lemma SectionRowFilter(title: string, meals: seq<Meal>)
    ensures Text.Filter(MarkdownSection(title, meals), IsMealRow) == MarkdownRows(meals)
  {
    var t := [MarkdownTitle(title)];
    var rows := MarkdownRows(meals);
    var head := t + TableHeader();
    assert Text.Filter(head, IsMealRow) == [] by {
      TableHeaderShape();
      assert forall i :: 0 <= i < |head| ==> !IsMealRow(head[i]);
      Text.FilterNone(head, IsMealRow);
    }
    FilterAllRows(meals);
    Text.FilterAppend(head, rows, IsMealRow);
  }

  lemma {:induction false} FilterAllRows(meals: seq<Meal>)
    ensures Text.Filter(MarkdownRows(meals), IsMealRow) == MarkdownRows(meals)
    decreases |meals|
  {
    if meals != [] {
      var n := |meals| - 1;
      var rows := MarkdownRows(meals);
      assert rows[..n] == MarkdownRows(meals[..n]);
      FilterAllRows(meals[..n]);
    }
  }

  /** The Markdown of a day has its four section titles ("## Suppen" and
      so on) in the fixed order Suppen, Beilagen, Hauptspeisen, Nachspeisen
      (not the order the lists are declared in), and one row per meal: the
      soups, then the side dishes, the main dishes and the desserts, each
      list in its order. */
  lemma MarkdownLayout(b: Buckets)
    ensures Text.Filter(MarkdownLines(b), IsSectionTitle)
      == [MarkdownTitle("Suppen"), MarkdownTitle("Beilagen"), MarkdownTitle("Hauptspeisen"), MarkdownTitle("Nachspeisen")]
    ensures Text.Filter(MarkdownLines(b), IsMealRow) == MarkdownRows(InSectionOrder(b))
    ensures |MarkdownLines(b)| == 12 + Total(b)
  {
    var s1 := MarkdownSection("Suppen", b.suppen);
    var s2 := MarkdownSection("Beilagen", b.beilagen);
    var s3 := MarkdownSection("Hauptspeisen", b.hauptspeisen);
    var s4 := MarkdownSection("Nachspeisen", b.nachspeisen);
    assert MarkdownLines(b) == s1 + s2 + s3 + s4;
    SectionTitleFilter("Suppen", b.suppen);
    SectionTitleFilter("Beilagen", b.beilagen);
    SectionTitleFilter("Hauptspeisen", b.hauptspeisen);
    SectionTitleFilter("Nachspeisen", b.nachspeisen);
    Text.FilterOnePerPiece(s1, s2, s3, s4, IsSectionTitle,
      MarkdownTitle("Suppen"), MarkdownTitle("Beilagen"), MarkdownTitle("Hauptspeisen"), MarkdownTitle("Nachspeisen"));
    MarkdownMealRows(b);
  }

  lemma MarkdownMealRows(b: Buckets)
    ensures Text.Filter(MarkdownLines(b), IsMealRow) == MarkdownRows(InSectionOrder(b))
  {
    var s1 := MarkdownSection("Suppen", b.suppen);
    var s2 := MarkdownSection("Beilagen", b.beilagen);
    var s3 := MarkdownSection("Hauptspeisen", b.hauptspeisen);
    var s4 := MarkdownSection("Nachspeisen", b.nachspeisen);
    Text.FilterAppend4(s1, s2, s3, s4, IsMealRow);
    SectionRowFilter("Suppen", b.suppen);
    SectionRowFilter("Beilagen", b.beilagen);
    SectionRowFilter("Hauptspeisen", b.hauptspeisen);
    SectionRowFilter("Nachspeisen", b.nachspeisen);
    MarkdownRowsAppend(b.suppen + b.beilagen + b.hauptspeisen, b.nachspeisen);
    MarkdownRowsAppend(b.suppen + b.beilagen, b.hauptspeisen);
    MarkdownRowsAppend(b.suppen, b.beilagen);
  }

  // ---------------------------------------------------------------------
  // Text rendering (`Weekday.__str__`), as a list of lines

  function TextRows(meals: seq<Meal>): (r: seq<string>)
    ensures |r| == |meals|
    ensures forall i :: 0 <= i < |meals| ==> r[i] == "       - " + ToStr(meals[i])
  {
    if meals == [] then []
    else TextRows(meals[..|meals| - 1]) + ["       - " + ToStr(meals[|meals| - 1])]
  }

  function TextSection(title: string, meals: seq<Meal>): seq<string> {
    [TextTitle(title)] + TextRows(meals)
  }

  function TextLines(b: Buckets): seq<string> {
    TextSection("Suppen", b.suppen) + TextSection("Beilagen", b.beilagen)
      + TextSection("Hauptspeisen", b.hauptspeisen) + TextSection("Nachspeisen", b.nachspeisen)
  }

  /** A section title of the text form: indented by exactly four spaces. */
  predicate IsTextTitle(l: string) {
    |l| >= 5 && l[..4] == "    " && l[4] != ' '
  }

  /** A meal line of the text form: indented by seven spaces and a dash. */
  predicate IsTextMealLine(l: string) {
    |l| >= 9 && l[..9] == "       - "
  }

  lemma {:induction false} TextRowsAppend(a: seq<Meal>, b: seq<Meal>)
    ensures TextRows(a + b) == TextRows(a) + TextRows(b)
    decreases |b|
  {
    if b == [] {
      assert a + b == a;
    } else {
      var n := |b| - 1;
      assert (a + b)[..|a + b| - 1] == a + b[..n];
      assert (a + b)[|a + b| - 1] == b[n];
      TextRowsAppend(a, b[..n]);
    }
  }

  function TextTitle(title: string): string {
    "    " + title + ":"
  }

  /** The text of a day lists its four section titles ("    Suppen:" and
      so on) in the same fixed order as the Markdown, each followed by one
      line per meal of its list; the other lines are the meal lines. */
  lemma TextLayout(b: Buckets)
    ensures Text.Filter(TextLines(b), IsTextTitle)
      == [TextTitle("Suppen"), TextTitle("Beilagen"), TextTitle("Hauptspeisen"), TextTitle("Nachspeisen")]
    ensures Text.Filter(TextLines(b), IsTextMealLine) == TextRows(InSectionOrder(b))
    ensures |TextLines(b)| == 4 + Total(b)
  {
    TextMealLines(b);
    var s1 := TextSection("Suppen", b.suppen);
    var s2 := TextSection("Beilagen", b.beilagen);
    var s3 := TextSection("Hauptspeisen", b.hauptspeisen);
    var s4 := TextSection("Nachspeisen", b.nachspeisen);
    assert TextLines(b) == s1 + s2 + s3 + s4;
    TextSectionShape("Suppen", b.suppen);
    TextSectionShape("Beilagen", b.beilagen);
    TextSectionShape("Hauptspeisen", b.hauptspeisen);
    TextSectionShape("Nachspeisen", b.nachspeisen);
    Text.FilterOnePerPiece(s1, s2, s3, s4, IsTextTitle,
      TextTitle("Suppen"), TextTitle("Beilagen"), TextTitle("Hauptspeisen"), TextTitle("Nachspeisen"));
  }

  lemma TextMealLines(b: Buckets)
    ensures Text.Filter(TextLines(b), IsTextMealLine) == TextRows(InSectionOrder(b))
  {
    var s1 := TextSection("Suppen", b.suppen);
    var s2 := TextSection("Beilagen", b.beilagen);
    var s3 := TextSection("Hauptspeisen", b.hauptspeisen);
    var s4 := TextSection("Nachspeisen", b.nachspeisen);
    Text.FilterAppend4(s1, s2, s3, s4, IsTextMealLine);
    TextSectionRowFilter("Suppen", b.suppen);
    TextSectionRowFilter("Beilagen", b.beilagen);
    TextSectionRowFilter("Hauptspeisen", b.hauptspeisen);
    TextSectionRowFilter("Nachspeisen", b.nachspeisen);
    TextRowsAppend(b.suppen + b.beilagen + b.hauptspeisen, b.nachspeisen);
    TextRowsAppend(b.suppen + b.beilagen, b.hauptspeisen);
    TextRowsAppend(b.suppen, b.beilagen);
  }

  lemma TextSectionRowFilter(title: string, meals: seq<Meal>)
    requires |title| > 0 && title[0] != ' '
    ensures Text.Filter(TextSection(title, meals), IsTextMealLine) == TextRows(meals)
  {
    var t := TextTitle(title);
    assert t[4] == title[0];
    assert Text.Filter([t], IsTextMealLine) == [] by {
      assert !IsTextMealLine(t);
      Text.FilterNone([t], IsTextMealLine);
    }
    FilterAllTextRows(meals);
    Text.FilterAppend([t], TextRows(meals), IsTextMealLine);
  }

  lemma {:induction false} FilterAllTextRows(meals: seq<Meal>)
    ensures Text.Filter(TextRows(meals), IsTextMealLine) == TextRows(meals)
    decreases |meals|
  {
    if meals != [] {
      var n := |meals| - 1;
      var rows := TextRows(meals);
      assert rows[..n] == TextRows(meals[..n]);
      assert IsTextMealLine(rows[n]) by {
        assert rows[n][..9] == "       - ";
      }
      FilterAllTextRows(meals[..n]);
    }
  }

  lemma TextSectionShape(title: string, meals: seq<Meal>)
    requires |title| > 0 && title[0] != ' '
    ensures Text.Filter(TextSection(title, meals), IsTextTitle) == [TextTitle(title)]
  {
    var rows := TextRows(meals);
    Text.FilterAppend([TextTitle(title)], rows, IsTextTitle);
    assert forall i :: 0 <= i < |rows| ==> rows[i][4] == ' ';
    Text.FilterNone(rows, IsTextTitle);
    var t := TextTitle(title);
    assert t[..4] == "    " && t[4] == title[0];
    var none: seq<string> := [];
    assert [t][..0] == none;
  }

  // ---------------------------------------------------------------------
  // Line breaks

  predicate NoNewline(m: Meal) {
    '\n' !in m.name && '\n' !in m.priceStudents && '\n' !in m.priceWorkers
      && '\n' !in m.priceGuest && '\n' !in m.imageUrl
  }

  predicate AllNoNewline(meals: seq<Meal>) {
    forall i :: 0 <= i < |meals| ==> NoNewline(meals[i])
  }

  predicate NoNewlines(b: Buckets) {
    AllNoNewline(b.suppen) && AllNoNewline(b.beilagen)
      && AllNoNewline(b.hauptspeisen) && AllNoNewline(b.nachspeisen)
  }

  ghost predicate SingleLines(lines: seq<string>) {
    forall i :: 0 <= i < |lines| ==> '\n' !in lines[i]
  }

  lemma SingleLinesAppend(a: seq<string>, b: seq<string>)
    requires SingleLines(a) && SingleLines(b)
    ensures SingleLines(a + b)
  {
  }

  lemma MarkdownSectionSingle(title: string, meals: seq<Meal>)
    requires '\n' !in title
    requires AllNoNewline(meals)
    ensures SingleLines(MarkdownSection(title, meals))
  {
    var rows := MarkdownRows(meals);
    forall i | 0 <= i < |rows| ensures '\n' !in rows[i] {
      assert NoNewline(meals[i]);
    }
    TableHeaderShape();
    SingleLinesAppend([MarkdownTitle(title)], TableHeader());
    SingleLinesAppend([MarkdownTitle(title)] + TableHeader(), rows);
  }

  lemma MarkdownLinesSingle(b: Buckets)
    requires NoNewlines(b)
    ensures SingleLines(MarkdownLines(b))
  {
    var s1 := MarkdownSection("Suppen", b.suppen);
    var s2 := MarkdownSection("Beilagen", b.beilagen);
    var s3 := MarkdownSection("Hauptspeisen", b.hauptspeisen);
    var s4 := MarkdownSection("Nachspeisen", b.nachspeisen);
    assert SingleLines(s1) by {
      MarkdownSectionSingle("Suppen", b.suppen);
    }
    assert SingleLines(s2) by {
      MarkdownSectionSingle("Beilagen", b.beilagen);
    }
    assert SingleLines(s3) by {
      MarkdownSectionSingle("Hauptspeisen", b.hauptspeisen);
    }
    assert SingleLines(s4) by {
      MarkdownSectionSingle("Nachspeisen", b.nachspeisen);
    }
    SingleLinesAppend(s1, s2);
    SingleLinesAppend(s1 + s2, s3);
    SingleLinesAppend(s1 + s2 + s3, s4);
  }

  /** The day's Markdown text, split at its line breaks, gives back exactly
      its lines (and the empty piece after the final break), as long as no
      meal field holds a line break. */
  lemma MarkdownOutputLines(b: Buckets)
    requires NoNewlines(b)
    ensures Text.Split(Text.JoinLines(MarkdownLines(b)), '\n') == MarkdownLines(b) + [""]
  {
    MarkdownLinesSingle(b);
    Text.SplitJoinLines(MarkdownLines(b));
  }

  lemma TextSectionSingle(title: string, meals: seq<Meal>)
    requires '\n' !in title
    requires AllNoNewline(meals)
    ensures SingleLines(TextSection(title, meals))
  {
    var rows := TextRows(meals);
    forall i | 0 <= i < |rows| ensures '\n' !in rows[i] {
      assert NoNewline(meals[i]);
    }
    SingleLinesAppend([TextTitle(title)], rows);
  }

  lemma TextLinesSingle(b: Buckets)
    requires NoNewlines(b)
    ensures SingleLines(TextLines(b))
  {
    var s1 := TextSection("Suppen", b.suppen);
    var s2 := TextSection("Beilagen", b.beilagen);
    var s3 := TextSection("Hauptspeisen", b.hauptspeisen);
    var s4 := TextSection("Nachspeisen", b.nachspeisen);
    assert SingleLines(s1) by {
      TextSectionSingle("Suppen", b.suppen);
    }
    assert SingleLines(s2) by {
      TextSectionSingle("Beilagen", b.beilagen);
    }
    assert SingleLines(s3) by {
      TextSectionSingle("Hauptspeisen", b.hauptspeisen);
    }
    assert SingleLines(s4) by {
      TextSectionSingle("Nachspeisen", b.nachspeisen);
    }
    SingleLinesAppend(s1, s2);
    SingleLinesAppend(s1 + s2, s3);
    SingleLinesAppend(s1 + s2 + s3, s4);
  }

  /** The same for the day's text form. */
  lemma TextOutputLines(b: Buckets)
    requires NoNewlines(b)
    ensures Text.Split(Text.JoinLines(TextLines(b)), '\n') == TextLines(b) + [""]
  {
    TextLinesSingle(b);
    Text.SplitJoinLines(TextLines(b));
  }

  // ---------------------------------------------------------------------
  // Rendering loops

  /** One iteration of a section's `for` loop: appending the next row. */
  lemma MarkdownRowsStep(start: string, meals: seq<Meal>, i: nat, r: string)
    requires i < |meals|
    requires r == start + Text.JoinLines(MarkdownRows(meals[..i]))
    ensures r + ToMarkdown(meals[i]) + "\n" == start + Text.JoinLines(MarkdownRows(meals[..i + 1]))
  {
    assert meals[..i + 1][..i] == meals[..i];
    assert MarkdownRows(meals[..i + 1]) == MarkdownRows(meals[..i]) + [ToMarkdown(meals[i])];
    Text.JoinLinesSnocAfter(start, MarkdownRows(meals[..i]), ToMarkdown(meals[i]), r);
  }

  lemma TextRowsStep(start: string, meals: seq<Meal>, i: nat, r: string)
    requires i < |meals|
    requires r == start + Text.JoinLines(TextRows(meals[..i]))
    ensures r + ("       - " + ToStr(meals[i])) + "\n" == start + Text.JoinLines(TextRows(meals[..i + 1]))
  {
    assert meals[..i + 1][..i] == meals[..i];
    assert TextRows(meals[..i + 1]) == TextRows(meals[..i]) + ["       - " + ToStr(meals[i])];
    Text.JoinLinesSnocAfter(start, TextRows(meals[..i]), "       - " + ToStr(meals[i]), r);
  }

  lemma SectionHead(res: string, title: string, r: string)
    requires r == res + MarkdownTitle(title) + "\n" + Text.JoinLines(TableHeader())
    ensures r == res + Text.JoinLines([MarkdownTitle(title)] + TableHeader())
  {
    Text.JoinLinesSnoc([], MarkdownTitle(title));
    Text.JoinLinesAfter(res, [MarkdownTitle(title)], TableHeader(), r);
  }

  /** The `for` loop of one Markdown section: one row per meal, in order. */
  method AppendMarkdownRows(start: string, meals: seq<Meal>) returns (r: string)
    ensures r == start + Text.JoinLines(MarkdownRows(meals))
  {
    r := start;
    var i := 0;
    while i < |meals|
      invariant 0 <= i <= |meals|
      invariant r == start + Text.JoinLines(MarkdownRows(meals[..i]))
    {
      MarkdownRowsStep(start, meals, i, r);
      r := r + ToMarkdown(meals[i]) + "\n";
      i := i + 1;
    }
    assert meals[..i] == meals;
  }

  /** Appends a section title, the table header and one row per meal. */
  method AppendMarkdownSection(res: string, title: string, meals: seq<Meal>) returns (r: string)
    ensures r == res + Text.JoinLines(MarkdownSection(title, meals))
  {
    r := res + MarkdownTitle(title) + "\n";
    r := r + Text.JoinLines(TableHeader());
    SectionHead(res, title, r);
    r := AppendMarkdownRows(r, meals);
    Text.JoinLinesAfter(res, [MarkdownTitle(title)] + TableHeader(), MarkdownRows(meals), r);
  }

  /** The `for` loop of one text section: one line per meal, in order. */
  method AppendTextRows(start: string, meals: seq<Meal>) returns (r: string)
    ensures r == start + Text.JoinLines(TextRows(meals))
  {
    r := start;
    var i := 0;
    while i < |meals|
      invariant 0 <= i <= |meals|
      invariant r == start + Text.JoinLines(TextRows(meals[..i]))
    {
      TextRowsStep(start, meals, i, r);
      r := r + ("       - " + ToStr(meals[i])) + "\n";
      i := i + 1;
    }
    assert meals[..i] == meals;
  }

  /** Appends a section title and one line per meal. */
  method AppendTextSection(res: string, title: string, meals: seq<Meal>) returns (r: string)
    ensures r == res + Text.JoinLines(TextSection(title, meals))
  {
    r := res + TextTitle(title) + "\n";
    assert r == res + Text.JoinLines([TextTitle(title)]) by {
      Text.JoinLinesSnoc([], TextTitle(title));
    }
    r := AppendTextRows(r, meals);
    Text.JoinLinesAfter(res, [TextTitle(title)], TextRows(meals), r);
  }

  class Weekday {
    /** The date as `dd.mm.yyyy`. */
    const datum: string
    var suppen: seq<Meal>
    var hauptspeisen: seq<Meal>
    var beilagen: seq<Meal>
    var nachspeisen: seq<Meal>

    constructor (date: Date)
      ensures datum == FormatDate(date)
      ensures Contents() == EMPTY
    {
      datum := FormatDate(date);
      suppen, hauptspeisen, beilagen, nachspeisen := [], [], [], [];
    }

    function Contents(): Buckets
      reads this
    {
      Buckets(suppen, hauptspeisen, beilagen, nachspeisen)
    }

    /** `add_meal`: appends in place to the one list the label selects, or
        raises "Unknown meal type" and changes nothing. */
    method AddMeal(meal: Meal, mealType: string) returns (outcome: Outcome<Error>)
      modifies this
      ensures match AddTo(old(Contents()), meal, mealType)
        case Success(b) => outcome == Pass && Contents() == b
        case Failure(e) => outcome == Fail(e) && Contents() == old(Contents())
      ensures Text.Lower(mealType) == "hauptgerichte" ==>
        hauptspeisen == old(hauptspeisen) + [meal]
        && suppen == old(suppen) && beilagen == old(beilagen) && nachspeisen == old(nachspeisen)
      ensures Text.Lower(mealType) == "beilagen" ==>
        beilagen == old(beilagen) + [meal]
        && suppen == old(suppen) && hauptspeisen == old(hauptspeisen) && nachspeisen == old(nachspeisen)
      ensures Text.Lower(mealType) == "suppen" ==>
        suppen == old(suppen) + [meal]
        && hauptspeisen == old(hauptspeisen) && beilagen == old(beilagen) && nachspeisen == old(nachspeisen)
      ensures Text.Lower(mealType) == "nachspeisen" ==>
        nachspeisen == old(nachspeisen) + [meal]
        && suppen == old(suppen) && hauptspeisen == old(hauptspeisen) && beilagen == old(beilagen)
      ensures Classify(mealType).None? ==>
        outcome == Fail(UnknownMealType(mealType)) && Contents() == old(Contents())
    {
      var l := Text.Lower(mealType);
      if l == "hauptgerichte" {
        hauptspeisen := hauptspeisen + [meal];
      } else if l == "beilagen" {
        beilagen := beilagen + [meal];
      } else if l == "suppen" {
        suppen := suppen + [meal];
      } else if l == "nachspeisen" {
        nachspeisen := nachspeisen + [meal];
      } else {
        return Fail(UnknownMealType(mealType));
      }
      outcome := Pass;
    }

    /** `to_markdown_str`. */
    method ToMarkdownStr() returns (res: string)
      ensures res == Text.JoinLines(MarkdownLines(Contents()))
    {
      var s1 := MarkdownSection("Suppen", suppen);
      var s2 := MarkdownSection("Beilagen", beilagen);
      var s3 := MarkdownSection("Hauptspeisen", hauptspeisen);
      var s4 := MarkdownSection("Nachspeisen", nachspeisen);
      res := AppendMarkdownSection("", "Suppen", suppen);
      res := AppendMarkdownSection(res, "Beilagen", beilagen);
      Text.JoinLinesAfter("", s1, s2, res);
      res := AppendMarkdownSection(res, "Hauptspeisen", hauptspeisen);
      Text.JoinLinesAfter("", s1 + s2, s3, res);
      res := AppendMarkdownSection(res, "Nachspeisen", nachspeisen);
      Text.JoinLinesAfter("", s1 + s2 + s3, s4, res);
      assert "" + Text.JoinLines(s1 + s2 + s3 + s4) == Text.JoinLines(s1 + s2 + s3 + s4);
    }

    /** `__str__`. */
    method ToStr() returns (res: string)
      ensures res == Text.JoinLines(TextLines(Contents()))
    {
      var s1 := TextSection("Suppen", suppen);
      var s2 := TextSection("Beilagen", beilagen);
      var s3 := TextSection("Hauptspeisen", hauptspeisen);
      var s4 := TextSection("Nachspeisen", nachspeisen);
      res := AppendTextSection("", "Suppen", suppen);
      res := AppendTextSection(res, "Beilagen", beilagen);
      Text.JoinLinesAfter("", s1, s2, res);
      res := AppendTextSection(res, "Hauptspeisen", hauptspeisen);
      Text.JoinLinesAfter("", s1 + s2, s3, res);
      res := AppendTextSection(res, "Nachspeisen", nachspeisen);
      Text.JoinLinesAfter("", s1 + s2 + s3, s4, res);
      assert "" + Text.JoinLines(s1 + s2 + s3 + s4) == Text.JoinLines(s1 + s2 + s3 + s4);
    }
  }
}
