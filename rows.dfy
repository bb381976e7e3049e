/** The table-row loop of `Mensaplan.get_with_images` (and the slice that
    computes the image base URL), over an abstract sequence of rows: each
    row is its class list and its cells, each cell its text, its classes
    and the first `<img>` inside it. The HTML fetch and parse that produce
    the rows are not part of this model. */
module Rows {
  import opened Wrappers
  import opened Errors
  import Text
  import opened Meals
  import opened Days

  /** An `<img>` element; `src` is its src attribute when it has one. */
  datatype Img = Img(src: Option<string>)

  /** A `<td>` cell: its text, its classes and the first `<img>` it holds. */
  datatype Cell = Cell(text: string, classes: seq<string>, image: Option<Img>)

  /** A `<tr>` row. A row without a class attribute and one with an empty
      class list are both skipped, so both are the empty sequence here. */
  datatype Row = Row(classes: seq<string>, cells: seq<Cell>)

  const GROUP_HEADER := "gruppenkopf"
  const MEAL_ROW := "essenzeile"
  const PRICE := "preis"

  /** `url[:url.rindex('/') + 1]`: everything up to and including the last
      '/'; ValueError (`None`) when there is none. */
  function BaseUrl(url: string): (r: Option<string>)
    ensures r.None? <==> '/' !in url
    ensures r.Some? ==>
      && r.value <= url
      && |r.value| > 0 && r.value[|r.value| - 1] == '/'
      && '/' !in url[|r.value|..]
  {
    match Text.LastIndexOf(url, '/')
    case None => None
    case Some(k) => Some(url[..k + 1])
  }

  /** The texts of the cells whose class list holds "preis", in row order
      (`find_all('td', class_='preis')`). */
  function PriceTexts(cells: seq<Cell>): (r: seq<string>)
    ensures |r| <= |cells|
    ensures (forall i :: 0 <= i < |cells| ==> PRICE !in cells[i].classes) ==> r == []
    ensures (forall i :: 0 <= i < |cells| ==> PRICE in cells[i].classes) ==>
      |r| == |cells| && forall i :: 0 <= i < |cells| ==> r[i] == cells[i].text
  {
    if cells == [] then []
    else (if PRICE in cells[0].classes then [cells[0].text] else []) + PriceTexts(cells[1..])
  }

  lemma {:induction false} PriceTextsAppend(a: seq<Cell>, b: seq<Cell>)
    ensures PriceTexts(a + b) == PriceTexts(a) + PriceTexts(b)
    decreases |a|
  {
    if a == [] {
      assert a + b == b;
    } else {
      var head := if PRICE in a[0].classes then [a[0].text] else [];
      assert (a + b)[0] == a[0];
      assert (a + b)[1..] == a[1..] + b;
      calc {
        PriceTexts(a + b);
        head + PriceTexts(a[1..] + b);
        { PriceTextsAppend(a[1..], b); }
        head + (PriceTexts(a[1..]) + PriceTexts(b));
        PriceTexts(a) + PriceTexts(b);
      }
    }
  }

  /** The image URL of a meal: empty without an `<img>` in the first cell,
      else the base URL followed by the src attribute (KeyError when the
      `<img>` has none). */
  function ImageUrl(cell: Cell, base: string): Result<string, Error> {
    match cell.image
    case None => Success("")
    case Some(Img(None)) => Failure(NoImageSource)
    case Some(Img(Some(src))) => Success(base + src)
  }

  /** The `Meal` an "essenzeile" row describes: the second cell is its name,
      the price cells its prices, the first cell's image its picture. */
  function MealOfRow(row: Row, base: string): (r: Result<Meal, Error>)
    ensures r.Failure? <==>
      || |row.cells| < 2
      || (row.cells[0].image.Some? && row.cells[0].image.value.src.None?)
      || |PriceTexts(row.cells)| < 3
    ensures |row.cells| < 2 ==> r == Failure(IndexOutOfRange)
    ensures |row.cells| >= 2 && row.cells[0].image == Some(Img(None)) ==> r == Failure(NoImageSource)
    ensures |row.cells| >= 2 && row.cells[0].image != Some(Img(None)) && |PriceTexts(row.cells)| < 3 ==>
      r == Failure(IndexOutOfRange)
    ensures r.Success? ==>
      && r.value.name == row.cells[1].text
      && (row.cells[0].image.None? ==> r.value.imageUrl == "")
      && (row.cells[0].image.Some? ==> r.value.imageUrl == base + row.cells[0].image.value.src.value)
      && DotDecimalOf(PriceTexts(row.cells)[0], r.value.priceStudents)
      && DotDecimalOf(PriceTexts(row.cells)[1], r.value.priceWorkers)
      && DotDecimalOf(PriceTexts(row.cells)[2], r.value.priceGuest)
  {
    var prices := PriceTexts(row.cells);
    if |row.cells| < 2 then Failure(IndexOutOfRange)
    else
      var url :- ImageUrl(row.cells[0], base);
      NewMeal(row.cells[1].text, prices, url)
  }

  /** The text of a group header's first cell; AttributeError when the row
      has no cell. */
  function HeaderText(row: Row): Result<string, Error> {
    if row.cells == [] then Failure(NoCell) else Success(row.cells[0].text)
  }

  /** The loop state: the day's lists and `current_meal_type`. */
  datatype Scan = Scan(buckets: Buckets, mealType: string)

  /** `current_meal_type` once a row's group-header test is done: the text
      of its first cell for a group header that has one, else unchanged. */
  function CategoryAfter(st: Scan, row: Row): string {
    if GROUP_HEADER in row.classes && row.cells != [] then row.cells[0].text else st.mealType
  }

  /** One pass of the loop. The two class tests are independent: a row that
      is both a group header and a meal row first sets the category and
      then files its meal under it. A pass raises exactly when a group
      header has no cell, or a meal row does not make a `Meal` or names no
      section. */
  function Step(st: Scan, row: Row, base: string): (r: Result<Scan, Error>)
    ensures row.classes == [] ==> r == Success(st)
    ensures r.Failure? <==>
      || (GROUP_HEADER in row.classes && row.cells == [])
      || (MEAL_ROW in row.classes
          && (MealOfRow(row, base).Failure? || Classify(CategoryAfter(st, row)).None?))
    ensures GROUP_HEADER in row.classes && row.cells == [] ==> r == Failure(NoCell)
    ensures r.Failure? && !(GROUP_HEADER in row.classes && row.cells == []) ==>
      if MealOfRow(row, base).Failure? then r.error == MealOfRow(row, base).error
      else r.error == UnknownMealType(CategoryAfter(st, row))
    ensures r.Success? && GROUP_HEADER in row.classes ==>
      row.cells != [] && r.value.mealType == row.cells[0].text
    ensures r.Success? && GROUP_HEADER !in row.classes ==> r.value.mealType == st.mealType
    ensures r.Success? && MEAL_ROW !in row.classes ==> r.value.buckets == st.buckets
    ensures r.Success? && MEAL_ROW in row.classes ==>
      && MealOfRow(row, base).Success?
      && AddTo(st.buckets, MealOfRow(row, base).value, r.value.mealType) == Success(r.value.buckets)
  {
    if row.classes == [] then Success(st)
    else
      var mealType :- if GROUP_HEADER in row.classes then HeaderText(row) else Success(st.mealType);
      if MEAL_ROW in row.classes then
        var meal :- MealOfRow(row, base);
        var b :- AddTo(st.buckets, meal, mealType);
        Success(Scan(b, mealType))
      else
        Success(Scan(st.buckets, mealType))
  }

  /** The state the loop ends in, and whether it ran to the end or raised;
      meals filed before an exception stay filed. */
  datatype Run = Run(buckets: Buckets, outcome: Outcome<Error>)

  /** The number of rows that file a meal when the loop passes them. */
  function MealRowCount(rows: seq<Row>): (n: nat)
    ensures n <= |rows|
  {
    if rows == [] then 0
    else (if MEAL_ROW in rows[0].classes then 1 else 0) + MealRowCount(rows[1..])
  }

  /** The loop over all rows, from state `st`. Meals are only appended, and
      a loop that runs to the end has filed one meal per meal row. */
  function RunRows(st: Scan, rows: seq<Row>, base: string): (r: Run)
    ensures Extends(st.buckets, r.buckets)
    ensures Total(st.buckets) <= Total(r.buckets) <= Total(st.buckets) + MealRowCount(rows)
    ensures r.outcome.Pass? ==> Total(r.buckets) == Total(st.buckets) + MealRowCount(rows)
    decreases |rows|
  {
    if rows == [] then Run(st.buckets, Pass)
    else
      match Step(st, rows[0], base)
      case Failure(e) => Run(st.buckets, Fail(e))
      case Success(next) => RunRows(next, rows[1..], base)
  }

  /** The meal a row files when the loop passes it: its `Meal` for a meal
      row that makes one, nothing otherwise. */
  function MealHead(row: Row, base: string): (r: seq<Meal>)
    ensures |r| <= 1
  {
    var m := MealOfRow(row, base);
    if MEAL_ROW in row.classes && m.Success? then [m.value] else []
  }

  /** The meals the meal rows of `rows` describe, in row order. */
  function MealsOf(rows: seq<Row>, base: string): seq<Meal> {
    if rows == [] then [] else MealHead(rows[0], base) + MealsOf(rows[1..], base)
  }

  /** One pass over a row that is not a group header, under a category
      that names a section: a well-formed meal row appends its meal there. */
  lemma StepFilesMeal(st: Scan, row: Row, base: string, c: Category)
    requires Classify(st.mealType) == Some(c)
    requires GROUP_HEADER !in row.classes
    requires MEAL_ROW in row.classes ==> MealOfRow(row, base).Success?
    ensures Step(st, row, base).Success?
    ensures Step(st, row, base).value.mealType == st.mealType
    ensures Get(Step(st, row, base).value.buckets, c) == Get(st.buckets, c) + MealHead(row, base)
    ensures forall c' :: c' != c ==> Get(Step(st, row, base).value.buckets, c') == Get(st.buckets, c')
  {
    if MEAL_ROW !in row.classes {
      assert Get(st.buckets, c) + [] == Get(st.buckets, c);
    }
  }

  lemma AppendAfter(a: seq<Meal>, head: seq<Meal>, rest: seq<Meal>, all: seq<Meal>)
    requires all == head + rest
    ensures a + head + rest == a + all
  {
  }

  /** Under a category that names a section, and with no further group
      header, a run over well-formed meal rows runs to the end and appends
      exactly their meals, in row order, to that section and to no other. */
  lemma {:induction false} RunFilesEachMeal(st: Scan, rows: seq<Row>, base: string, c: Category)
    requires Classify(st.mealType) == Some(c)
    requires forall i :: 0 <= i < |rows| ==> GROUP_HEADER !in rows[i].classes
    requires forall i :: 0 <= i < |rows| && MEAL_ROW in rows[i].classes ==> MealOfRow(rows[i], base).Success?
    ensures RunRows(st, rows, base).outcome == Pass
    ensures Get(RunRows(st, rows, base).buckets, c) == Get(st.buckets, c) + MealsOf(rows, base)
    ensures forall c' :: c' != c ==> Get(RunRows(st, rows, base).buckets, c') == Get(st.buckets, c')
    decreases |rows|
  {
    if rows == [] {
      assert Get(st.buckets, c) + [] == Get(st.buckets, c);
    } else {
      StepFilesMeal(st, rows[0], base, c);
      var next := Step(st, rows[0], base).value;
      var rest := rows[1..];
      assert RunRows(st, rows, base) == RunRows(next, rest, base);
      RunFilesEachMeal(next, rest, base, c);
      AppendAfter(Get(st.buckets, c), MealHead(rows[0], base), MealsOf(rest, base), MealsOf(rows, base));
    }
  }

  /** A meal row met before any group header, while the category is still
      the empty string, always raises, and files nothing; when the row
      itself is well formed it is "Unknown meal type". */
  lemma MealRowBeforeHeaderFails(b: Buckets, rows: seq<Row>, base: string)
    requires rows != [] && MEAL_ROW in rows[0].classes && GROUP_HEADER !in rows[0].classes
    ensures RunRows(Scan(b, ""), rows, base).outcome.Fail?
    ensures RunRows(Scan(b, ""), rows, base).buckets == b
    ensures MealOfRow(rows[0], base).Success? ==>
      RunRows(Scan(b, ""), rows, base).outcome == Fail(UnknownMealType(""))
  {
    assert Classify("").None?;
  }

  /** Rows without a class change nothing. */
  lemma SkipUnclassed(st: Scan, row: Row, rows: seq<Row>, base: string)
    requires row.classes == []
    ensures RunRows(st, [row] + rows, base) == RunRows(st, rows, base)
  {
    assert ([row] + rows)[1..] == rows;
  }

  /** After a group header, every following meal row (up to the next
      header) is filed under the category of the header's text. */
  lemma {:induction false} FiledUnderHeader(st: Scan, rows: seq<Row>, base: string)
    requires forall i :: 0 <= i < |rows| ==> GROUP_HEADER !in rows[i].classes
    ensures forall c :: Classify(st.mealType) != Some(c) ==>
      Get(RunRows(st, rows, base).buckets, c) == Get(st.buckets, c)
    decreases |rows|
  {
    if rows != [] {
      match Step(st, rows[0], base)
      case Failure(_) =>
      case Success(next) =>
        assert next.mealType == st.mealType;
        FiledUnderHeader(next, rows[1..], base);
    }
  }
}
