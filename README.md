# mensaplan — a verified model of the meal-plan core

`mensaplan.py` fetches the weekly menu of a university canteen, sorts the
dishes of each day into four sections (soups, side dishes, main dishes,
desserts) and renders the plan as plain text or as Markdown tables. This
project models that core in Dafny:

- `Meal`: an immutable value. Its constructor turns decimal commas in the
  prices into points. It renders as a pipe-table row or as a short text.
- `Weekday`: a class with four meal lists. `add_meal` appends in place to
  the list that a case-insensitive label selects and raises on any other
  label. There is a text renderer and a Markdown renderer.
- `Mensaplan`: a class holding the requested week's dates, the dates to
  fetch, and one `Weekday` per fetched date, kept in insertion order. It
  provides `get_weekdays`, `select_single_weekday`, the row loop of
  `get_with_images` and the two plan renderers.

Dates are Python `datetime.date` ordinals: 1 is 0001-01-01, a Monday. The
weekday is `(n + 6) % 7`. A small proleptic Gregorian calendar converts
ordinals to year/month/day, so that `strftime('%d.%m.%Y')` and the year of
"today" can be computed. Exceptions become `Result`/`Outcome` values that
carry an `Error`. Each renderer is specified as a list of lines. The string
it builds is those lines, each followed by a line break (`Text.JoinLines`).
The properties are proved about these line lists.

The HTML page is not parsed. The row loop of `get_with_images` takes a
sequence of `Row` values. Each row has a class list and its cells. Each
cell has its text, its classes and the first `<img>` inside it.

Files:

- `wrappers.dfy`, `errors.dfy`: result types and the error kinds.
- `text.dfy`: the string operations used: `replace`, `lower`, `rindex`,
  `split`, line joining and line filtering.
- `calendar.dfy`: date ordinals and `dd.mm.yyyy`.
- `meals.dfy`: `Meal`.
- `days.dfy`: `Weekday`.
- `weeks.dfy`: `get_weekdays`.
- `rows.dfy`: the row loop as a state machine, and the image base URL.
- `plans.dfy`: `Mensaplan`.

## Model

| member | source | states |
|---|---|---|
| Text.ReplaceChar | mensaplan.py:16-18 | `str.replace(',', '.')` keeps the length, maps every ',' to '.' and keeps every other character; no ',' is left |
| Text.Lower | mensaplan.py:37 | `lower()` keeps the length and lowers each character (ASCII letters only) |
| Text.LastIndexOf | mensaplan.py:151 | `rindex('/')` is absent exactly when there is no '/'; otherwise it is a '/' with no '/' after it |
| Calendar.FromToOrdinal | mensaplan.py:119 | every valid year/month/day has an ordinal in 1 .. 3652059, and converting that ordinal back gives the same date |
| Calendar.FormatDate | mensaplan.py:30 | `strftime('%d.%m.%Y')` is ten characters: digits with '.' at positions 2 and 5 |
| Calendar.FormatDateRoundTrip | mensaplan.py:30 | reading day, month and year back from the `dd.mm.yyyy` string gives the calendar date of the ordinal |
| Meals.NewMeal | mensaplan.py:10-19 | fails with IndexError exactly when there are fewer than 3 prices; otherwise keeps the name and the image URL, and each of the three prices is its input with ',' replaced by '.' and no ',' left; later prices are ignored |
| Meals.ToMarkdown | mensaplan.py:23-25 | the row starts with "\|<" (the `<img>` tag is always there) and ends with "\|" |
| Meals.MarkdownRowCells | mensaplan.py:23-25 | splitting the row at '\|' gives back exactly "", the image tag of the URL, the name and the three prices, "" — as long as no field holds a '\|' |
| Meals.ToStr | mensaplan.py:20-21 | `__str__` is the name, then " - : ", then the student price |
| Days.Classify | mensaplan.py:37-47 | a label selects a section exactly when its lower-case form is one of the four section labels |
| Days.AddTo | mensaplan.py:36-47 | on the list values: fails with "Unknown meal type" exactly for unknown labels; otherwise appends the meal to the selected list only, and the total grows by one |
| Days.Weekday.constructor | mensaplan.py:28-34 | a new day stores its date as `dd.mm.yyyy` and has four empty lists |
| Days.Weekday.AddMeal | mensaplan.py:36-47 | for each of the four labels, in any letter case, the meal is appended to that list and the other three are unchanged; any other label, "" included, fails with "Unknown meal type" and changes nothing |
| Days.MarkdownRows | mensaplan.py:57-70 | one table row per meal, the i-th row rendering the i-th meal |
| Days.TableHeaderShape | mensaplan.py:49-52 | the two header lines are neither section titles nor meal rows, and contain no line break |
| Days.MarkdownLayout | mensaplan.py:54-72 | the day's Markdown has the titles "## Suppen", "## Beilagen", "## Hauptspeisen", "## Nachspeisen" in that order; its meal rows are soups, side dishes, main dishes, desserts, each list in order; it has 12 lines plus one per meal (a title and two header lines per section) |
| Days.TextLayout | mensaplan.py:74-89 | the day's text has the titles "    Suppen:", "    Beilagen:", "    Hauptspeisen:", "    Nachspeisen:" in that order; its "       - " meal lines are the soups, side dishes, main dishes and desserts, each list in order; it has 4 lines plus one per meal |
| Days.MarkdownLinesSingle | mensaplan.py:54-72 | if no meal field holds a line break, no Markdown line holds one |
| Days.TextLinesSingle | mensaplan.py:74-89 | the same for the text form |
| Days.MarkdownOutputLines | mensaplan.py:54-72 | if no meal field holds a line break, splitting the day's Markdown string at "\n" gives back exactly its lines, plus the empty piece after the last break |
| Days.TextOutputLines | mensaplan.py:74-89 | the same for the day's text string |
| Days.AppendMarkdownRows | mensaplan.py:57-58 | the `for` loop of one Markdown section appends one row and a line break per meal, in list order |
| Days.AppendMarkdownSection | mensaplan.py:55-58 | appends a section's title, the table header and its rows |
| Days.AppendTextRows | mensaplan.py:77-78 | the `for` loop of one text section appends "       - " plus the meal's text per meal, in list order |
| Days.AppendTextSection | mensaplan.py:75-78 | appends a section's title and its meal lines |
| Days.Weekday.ToMarkdownStr | mensaplan.py:54-72 | the string built is exactly the day's Markdown lines, each followed by a line break |
| Days.Weekday.ToStr | mensaplan.py:74-89 | the string built is exactly the day's text lines, each followed by a line break |
| Weeks.YearOf | mensaplan.py:119 | the year of today is a valid year |
| Weeks.NewYear | mensaplan.py:119 | `date(year, 1, 1)` is a valid date |
| Weeks.NewYearDate | mensaplan.py:119 | that ordinal is 1 January of the year |
| Weeks.GetWeekdays | mensaplan.py:115-123 | fails (OverflowError) exactly when the Monday or the Friday falls outside the date range; otherwise returns five dates, each one day after the previous, the first being 1 January of today's year, moved back to its Monday, plus `week - 1` weeks |
| Weeks.GetWeekdaysWeek | mensaplan.py:119-122 | on the result: the first date is a Monday, and it is the Monday of the week holding the day `7 * (week - 1)` days after 1 January of today's year (so week 1 holds 1 January); the next week number starts seven days later |
| Weeks.FirstMondayIsMonday | mensaplan.py:120 | the first date is a Monday for every week number |
| Weeks.WeekdaysMondayToFriday | mensaplan.py:119-122 | the five dates are Monday, Tuesday, Wednesday, Thursday and Friday, in that order |
| Weeks.WeekOneHoldsNewYear | mensaplan.py:119-120 | week 1 is the Monday-to-Sunday week that holds 1 January |
| Weeks.NextWeek | mensaplan.py:120 | each later week number starts seven days later |
| Weeks.IsoAgreement | mensaplan.py:119-120 | the formula's week matches ISO 8601 week numbering exactly when 1 January is a Monday to Thursday; otherwise it runs one week behind |
| Rows.BaseUrl | mensaplan.py:151 | fails exactly when the URL has no '/'; otherwise a prefix of the URL ending in '/' with no '/' after it |
| Rows.PriceTexts | mensaplan.py:170 | at most one price per cell; none when no cell has class "preis"; all cell texts, in order, when every cell has it |
| Rows.MealOfRow | mensaplan.py:168-175 | fails exactly when the row has fewer than two cells (IndexError), the first cell's `<img>` has no src (KeyError), or there are fewer than three prices; otherwise name = second cell, image URL = base + src or "", and dot-decimal prices |
| Rows.Step | mensaplan.py:164-176 | one pass: a row without a class changes nothing; a header sets the category to its first cell's text; a meal row files its meal under the category in effect after that row's header test (both classes: header first); other rows keep the lists. It raises exactly when a header has no cell (AttributeError), or a meal row makes no `Meal` (that error) or its category names no section ("Unknown meal type") |
| Rows.StepFilesMeal | mensaplan.py:164-176 | a pass over a non-header row under a category that names a section succeeds, keeps the category, and appends a well-formed meal row's meal to that section only |
| Rows.RunRows | mensaplan.py:164-176 | the loop only appends meals; a run that finishes has filed exactly one meal per meal row |
| Rows.RunFilesEachMeal | mensaplan.py:164-177 | under a category that names a section, with no further header and only well-formed meal rows, the loop runs to the end and appends exactly the rows' meals, in row order, to that section and to no other |
| Rows.MealRowBeforeHeaderFails | mensaplan.py:162-176 | a meal row before any header (category "") raises and files nothing; "Unknown meal type" when the row itself is well formed |
| Rows.SkipUnclassed | mensaplan.py:165-166 | rows without a class are skipped |
| Rows.FiledUnderHeader | mensaplan.py:167-176 | without further headers, no section other than the current category's changes |
| Plans.ScanRows | mensaplan.py:162-176 | the imperative loop leaves the day's lists and its outcome exactly as the state machine's run from category "" |
| Plans.WeekdayName | mensaplan.py:182-194 | `weekdays[d.weekday()]`: a non-empty name that starts with neither ' ' nor '#' and has no line break |
| Plans.PlanMarkdownHeadings | mensaplan.py:191-195 | the plan's Markdown has one "# <weekday> (dd.mm.yyyy)" heading per stored day, in insertion order, and no other "# " line |
| Plans.PlanTextHeadings | mensaplan.py:212-214 | the plan's text has one unindented "<weekday>:" line per stored day, in insertion order |
| Plans.Mensaplan.constructor | mensaplan.py:96-113 | a new plan has the given weekdays and dates, the fixed URL and no stored day |
| Plans.Mensaplan.Create | mensaplan.py:96-113 | uses the given week, or the ISO week of today; fails when `get_weekdays` does; the dates are the five weekdays, or only today; the URL is the fixed plan address |
| Plans.UrlBase | mensaplan.py:112 | the image base URL of the fixed plan address is its directory, so the ValueError of `rindex` never happens for it |
| Plans.Mensaplan.SelectSingleWeekday | mensaplan.py:125-129 | Python indexing: -5 .. 4 selects one weekday (negative from Friday back); any other index raises IndexError and keeps the dates |
| Plans.Mensaplan.DayFor | mensaplan.py:157-160 | the date's day is reused when stored; otherwise a fresh empty day is stored and its date appended to the insertion order |
| Plans.Mensaplan.GetWithImages | mensaplan.py:151-176 | without a '/' in the URL: ValueError and no change; otherwise only the date's day changes, to what the row loop files into it (starting empty if the date was new), and the outcome is the loop's |
| Plans.Mensaplan.ToMarkdownStr | mensaplan.py:180-199 | the string built is exactly, for each stored day in insertion order, its heading, its Markdown and an empty line |
| Plans.Mensaplan.ToStr | mensaplan.py:201-215 | the string built is exactly, for each stored day in insertion order, "<weekday>:", its text and an empty line |

## Left out

- HTTP and HTML: the POST with its form data (mensaplan.py:142-148, 153) and the BeautifulSoup parse (mensaplan.py:154-155). The row loop takes the parsed rows as its input.
- The clock: `today` and its ISO week number are parameters of `Plans.Mensaplan.Create`. `isocalendar()` is not modelled.
- `Mensaplan.get` (mensaplan.py:131-136) is not modelled. It only calls `get_with_images` once per date, and each call needs its own network fetch.
- The `try`/`except` of `Mensaplan.to_markdown_str` (mensaplan.py:193-197) is not modelled. Nothing in the guarded lines can raise for a stored day, so the warning branch is dead.
- `oth_tool.py` (the command line) and `images.py` are not part of this model.
- Text.Lower: only 'A'..'Z' are lowered. No other character lowers to one of the four ASCII labels, so which labels are accepted is unchanged.
- Calendar.FormatDate: the year is always padded to four digits. Some C libraries print years below 1000 without padding.
- Rows.Cell: `find('td')` and `find('img')` search descendants. The model takes the first cell and the first image of that cell as given.
- Rows.Row: a row without a class attribute and one with an empty class list are both skipped, so both are an empty class list.
- Plans.Mensaplan.Create: in today-only mode the source stores a `datetime` (with a time of day) as the date. The model stores the date.
- Plans.Mensaplan.DayFor: does not restate that a newly created day's `datum` is `dd.mm.yyyy` of its date. `Days.Weekday.constructor` states that.
- Plans.Mensaplan.Valid: besides the five weekdays, it keeps the insertion order without repeats, the order holding exactly the stored dates, and a distinct `Weekday` per date. It does not carry the `datum` of each stored day.
- Weeks.GetWeekdays: a date beyond the range of `datetime.date` raises OverflowError in the source. Both the date addition and the range check are folded into one DateOutOfRange failure.
