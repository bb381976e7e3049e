/** One dish of the plan (class `Meal`): a value that never changes after
    construction. */
module Meals {
  import opened Wrappers
  import opened Errors
  import Text

  datatype Meal = Meal(
    name: string,
    priceStudents: string,
    priceWorkers: string,
    priceGuest: string,
    imageUrl: string)

  /** `t` is `s` written with a decimal point: every ',' of `s` is a '.' in
      `t`, every other character is kept. */
  ghost predicate DotDecimalOf(s: string, t: string) {
    |t| == |s| && forall i :: 0 <= i < |s| ==> t[i] == if s[i] == ',' then '.' else s[i]
  }

  /** `Meal(name, prices, image_url)`: the first three price strings, with
      decimal commas turned into points. Fewer than three prices raise
      IndexError; a fourth and later price is ignored. */
  function NewMeal(name: string, prices: seq<string>, imageUrl: string): (r: Result<Meal, Error>)
    ensures r.Failure? <==> |prices| < 3
    ensures r.Failure? ==> r.error == IndexOutOfRange
    ensures r.Success? ==> r.value.name == name && r.value.imageUrl == imageUrl
    ensures r.Success? ==>
      && DotDecimalOf(prices[0], r.value.priceStudents)
      && DotDecimalOf(prices[1], r.value.priceWorkers)
      && DotDecimalOf(prices[2], r.value.priceGuest)
    ensures r.Success? ==>
      ',' !in r.value.priceStudents && ',' !in r.value.priceWorkers && ',' !in r.value.priceGuest
  {
    if |prices| < 3 then Failure(IndexOutOfRange)
    else
      Success(Meal(
        name,
        Text.ReplaceChar(prices[0], ',', '.'),
        Text.ReplaceChar(prices[1], ',', '.'),
        Text.ReplaceChar(prices[2], ',', '.'),
        imageUrl))
  }

  /** The HTML image tag of the first table column; emitted even for an
      empty URL. */
  function ImageTag(url: string): string {
    "<img src=\"" + url + "\" width=\"200\"/>"
  }

  /** `Meal.to_markdown`: one pipe-table row. */
  function ToMarkdown(m: Meal): (r: string)
    ensures |r| >= 2 && r[0] == '|' && r[1] == '<' && r[|r| - 1] == '|'
  {
    "|" + ImageTag(m.imageUrl) + "|" + m.name + "|" + m.priceStudents + "|" + m.priceWorkers
      + "|" + m.priceGuest + "|"
  }

  /** `Meal.__str__`: the name and the student price. */
  function ToStr(m: Meal): (r: string)
    ensures |r| == |m.name| + 5 + |m.priceStudents|
    ensures r[..|m.name|] == m.name && r[|m.name| + 5..] == m.priceStudents
    ensures r[|m.name|..|m.name| + 5] == " - : "
  {
    m.name + " - : " + m.priceStudents
  }

  predicate NoPipes(m: Meal) {
    '|' !in m.imageUrl && '|' !in m.name
      && '|' !in m.priceStudents && '|' !in m.priceWorkers && '|' !in m.priceGuest
  }

  /** Reading the row back: splitting it at '|' yields exactly the five
      cells image, name and the three prices (between an empty first and
      last piece), as long as no field holds a '|' itself. */
  lemma MarkdownRowCells(m: Meal)
    requires NoPipes(m)
    ensures Text.Split(ToMarkdown(m), '|')
      == ["", ImageTag(m.imageUrl), m.name, m.priceStudents, m.priceWorkers, m.priceGuest, ""]
  {
    var img := ImageTag(m.imageUrl);
    ImageTagNoPipe(m.imageUrl);
    var p := '|';
    var t5 := m.priceGuest + [p] + [];
    var t4 := m.priceWorkers + [p] + t5;
    var t3 := m.priceStudents + [p] + t4;
    var t2 := m.name + [p] + t3;
    var t1 := img + [p] + t2;
    assert ToMarkdown(m) == [] + [p] + t1;
    assert Text.Split([], p) == [""];
    Text.SplitAt(m.priceGuest, p, []);
    assert Text.Split(t5, p) == [m.priceGuest, ""];
    Text.SplitAt(m.priceWorkers, p, t5);
    assert Text.Split(t4, p) == [m.priceWorkers, m.priceGuest, ""];
    Text.SplitAt(m.priceStudents, p, t4);
    assert Text.Split(t3, p) == [m.priceStudents, m.priceWorkers, m.priceGuest, ""];
    Text.SplitAt(m.name, p, t3);
    assert Text.Split(t2, p) == [m.name, m.priceStudents, m.priceWorkers, m.priceGuest, ""];
    Text.SplitAt(img, p, t2);
    assert Text.Split(t1, p) == [img, m.name, m.priceStudents, m.priceWorkers, m.priceGuest, ""];
    Text.SplitAt([], p, t1);
  }

  lemma ImageTagNoPipe(url: string)
    requires '|' !in url
    ensures '|' !in ImageTag(url)
  {
  }
}
