# MoneyTrail expense tracker: a verified model of its core

MoneyTrail is a single-page expense tracker (`scripts/script.js`). It keeps
three arrays: `trail` for recorded transactions, `pendingBills` for reminders
and `cats` for category names. A voice transcript can fill in the entry form.
The dashboard, the list and the charts are derived from the trail. This
project models that logic in Dafny, without the page around it, and proves
what it computes.

- **Parser** — `parseNaturalLanguage` is a pure function from the lower-cased
  transcript, the category list, the current form and today's date to the new
  form. It reads four things:
  - amount: the first maximal run of `\d` digits;
  - type: any expense cue wins over any income cue;
  - category: the first category in list order whose lower-case form occurs
    in the text; if none does, the phrase the pattern `for (.*?) (and|at|on|$)`
    captures, trimmed, as a custom category;
  - date: "yesterday" wins over "tomorrow".

  An empty category name matches every text and is falsy, so when it is the
  first match no category is selected and the custom phrase is tried.

  Each field changes only when its cue is present.
  - The pattern is an explicit leftmost search with a lazy group. The group
    cannot cross a line terminator.
  - The closing words are not whole-word matches ("on" matches inside "only").
  - Because a space precedes the `$` alternative, a phrase that ends the
    transcript is never captured. `Scenarios.EndPhraseNeedsTrailingSpace`
    shows this for "paid 50 for coffee".
- **Ledger** — a `Store` class with the three arrays as `seq` fields. Its
  methods are the form-submit handler, `payBill` and `deleteEntry`:
  - Submit: an empty category becomes "General". A non-empty custom category
    is appended with no duplicate check, and the list is sorted again. A
    reminder goes to `pendingBills`, anything else to `trail`.
  - PayBill: when no bill has the id, `findIndex` gives -1 and
    `splice(-1, 1)` removes the last bill. The model does exactly that.
  - DeleteEntry: its second argument "trail" selects the trail; any other
    value selects the reminders.
- **Filter and dashboard**
  - `filterData` keeps the trail entries that pass the type filter and the
    search, sorted by descending id.
  - `calculateDashboard` sums the whole trail and ignores the filtered list
    it is given.
- **Charts** — the three aggregations inside `initCharts`:
  - expense per category, over the filtered data;
  - income and expense per `YYYY-MM` month, over the whole trail, with
    sorted labels;
  - expense per weekday, seven buckets with Sunday first. An entry whose date
    does not read as a date goes to no bucket.

  The two map-building loops and the weekday loop are methods with loop
  invariants. The weekday buckets are a fresh `array`.
- **CSV** — the export text: a header, then `date,type,category,amount` per
  entry, with no quoting. A reading function is the reference it is proved
  against: the export reads back to the trail's records when no date or
  category holds a comma or a line break, and a single line with a comma in
  its date or category does not read at all.

Supporting modules:
- `Strings`: `includes`, ASCII `toLowerCase`, `trim` with the ECMAScript
  whitespace set, decimal rendering, and the default string order of
  `Array.prototype.sort` as an insertion sort proved sorted and a
  permutation.
- `Dates`: the proleptic Gregorian calendar, day numbers, `getDay`, and the
  `YYYY-MM-DD` text with its round trip.

Some behaviours of the code worth knowing:
- Type precedence is "expense first": the expense cue list is tested before
  the income list, so a transcript with both gives an expense.
- The category breakdown keeps every category that has an expense, even one
  whose amounts sum to zero.
- The list filter has only the type selector and the search box.
- Paying an absent id removes the last bill: `findIndex` gives -1 and
  `splice(-1, 1)` removes the last element; nothing reports the missing id.

## Model

| member | source | states |
|---|---|---|
| Parser.AmountSpan | scripts/script.js:35-36 | `/\d+/` matches the leftmost digit and extends over the whole digit run; no digit precedes it and a non-digit or the end follows it; no match exactly when the text has no digit |
| Parser.ExtractAmount | scripts/script.js:35-36 | an amount is written exactly when the digit pattern matches, and it is the value of the matched digit run |
| Parser.AnyCue | scripts/script.js:41-43 | `words.some(w => text.includes(w))` holds exactly when some listed word occurs in the text |
| Parser.ExtractKind | scripts/script.js:39-46 | an expense cue gives "expense" even when an income cue is present; otherwise an income cue gives "income"; no cue gives no change |
| Parser.FindCategory | scripts/script.js:49 | the result is the first index in list order whose lower-cased category occurs in the text; none exactly when no category occurs |
| Parser.EmptyCategoryStopsSearch | scripts/script.js:49-50 | an empty category name matches every text, so when it comes first among the matches `find` returns it and `if (foundCat)` rejects it: later categories are never selected |
| Parser.CategoryFound | scripts/script.js:49-50 | `if (foundCat)` holds exactly when some category occurs in the text, is not empty and no earlier category occurs; when no category is empty, exactly when some category occurs |
| Parser.FirstFoundIsLeast | scripts/script.js:49 | with `cats` kept sorted (the `cats.sort()` of line 233), the category `find` returns is at most, in the default sort order, every category the text names: the alphabetically first match wins |
| Parser.LazyGroupEnd | scripts/script.js:54 | the lazy group ends at the first position where ` (and\|at\|on\|$)` matches, passing no line terminator; none when no such position is reachable |
| Parser.CustomMatchFrom | scripts/script.js:54 | the pattern's match is the leftmost start where "for " and a closing part match, with the group end the lazy search gives |
| Parser.CustomPhrase | scripts/script.js:54-58 | a custom phrase exists exactly when the pattern matches somewhere in the text, and it is the trimmed lazy group of the leftmost match |
| Parser.WithAmount | scripts/script.js:36 | only the amount field changes, and only when a digit run is found |
| Parser.WithKind | scripts/script.js:41-46 | only the type field changes, and only when a cue is found |
| Parser.ExtractDate | scripts/script.js:63-69 | a date is written exactly when the text says "yesterday" or "tomorrow"; it is a valid date, one day number before today for "yesterday" (which wins when both occur) and one after for "tomorrow" |
| Parser.WithCategory | scripts/script.js:49-59 | a found category with a non-empty name is selected and nothing else changes; otherwise the custom phrase, when there is one, sets the selector to "custom", fills the custom text and shows it; otherwise the form is unchanged |
| Parser.WithDate | scripts/script.js:63-69 | only the date field changes; it becomes the ISO text of the day before or after today, else it is kept |
| Parser.ParseNaturalLanguage | scripts/script.js:33-72 | field by field: amount from the first digit run or unchanged; expense over income over unchanged; first named category when its name is not empty, else the custom phrase with the selector set to "custom", else unchanged; yesterday over tomorrow over unchanged; description, recurring and reminder untouched |
| Scenarios.SampleParse | scripts/script.js:33-72 | "spent 500 on food yesterday" on 2024-03-01 gives amount 500, type expense, category Food and date 2024-02-29 |
| Scenarios.SampleAmount | scripts/script.js:35-36 | the digit run of "spent 500 on food yesterday" spans positions 6 to 9 and reads as 500 |
| Scenarios.SampleKind | scripts/script.js:41-43 | "spent" is an expense cue present in the sample |
| Scenarios.SampleCategory | scripts/script.js:49 | with categories Food and Rent, Food is the first one found |
| Scenarios.SampleDate | scripts/script.js:63-65 | the sample says "yesterday", and the day before 2024-03-01 is written 2024-02-29 |
| Scenarios.LeapDayText | scripts/script.js:65 | 29 February 2024 is written "2024-02-29" |
| Scenarios.CustomParse | scripts/script.js:54-58 | "paid 200 for car wash at shell" with no category match sets the selector to "custom" and the custom category to "car wash" |
| Scenarios.CustomGroup | scripts/script.js:54 | in "paid 200 for car wash at shell" the pattern matches at 9 and its group ends at 21, before " at" |
| Scenarios.CustomKindAndDate | scripts/script.js:39-69 | the custom sample has the expense cue "paid" and neither "yesterday" nor "tomorrow" |
| Scenarios.CustomPhraseValue | scripts/script.js:54-57 | the trimmed phrase of the custom sample is "car wash" |
| Scenarios.EndPhraseNeedsTrailingSpace | scripts/script.js:54 | "paid 50 for coffee" yields no custom phrase: the `$` alternative needs a space before the end |
| Strings.NatToString | scripts/script.js:200 | the decimal text of a number is non-empty digits without a leading zero and denotes the number |
| Strings.ParseIntOfIntToString | scripts/script.js:200 | the decimal text of an amount reads back as that amount |
| Strings.IntToString | scripts/script.js:200 | `${t.amount}` is non-empty and starts with '-' exactly when the amount is negative |
| Strings.IntToStringDigits | scripts/script.js:200 | after the sign, if any, `${t.amount}` is all digits and denotes the amount's magnitude |
| Strings.Includes | scripts/script.js:42-66 | `text.includes(w)` (also the search filter at line 120) holds for the empty word and for the text itself, and only when the word is no longer than the text; its body is an occurrence at some position |
| Strings.ToLower | scripts/script.js:49 | `toLowerCase` keeps the length, leaves no capital letter, and changes a character only when it is a capital, moving it 32 code points to its small letter |
| Strings.ToLowerIdempotent | scripts/script.js:49 | lower-casing twice is lower-casing once |
| Strings.Trim | scripts/script.js:57 | `trim` returns the middle slice after removing only whitespace from both ends, and the result neither starts nor ends with whitespace |
| Strings.StrLeqTotal | scripts/script.js:233 | the default sort order relates every two strings |
| Strings.StrLeqAntisymmetric | scripts/script.js:233 | two strings each at most the other are equal |
| Strings.StrLeqTransitive | scripts/script.js:233 | the default sort order is transitive |
| Strings.SortedPairs | scripts/script.js:233 | in a list `sort` has put in order, each element is at most every later one |
| Strings.InsertString | scripts/script.js:233 | inserting into a sorted list keeps it sorted and adds exactly the new element |
| Strings.SortStrings | scripts/script.js:233 | `cats.sort()` returns a sorted permutation of its input |
| Strings.SortedDistinctIsStrict | scripts/script.js:218 | a sorted list without duplicates is strictly ascending |
| Strings.FixedDigitsOfValue | scripts/script.js:65 | writing a digit string's value back in the same width gives the string |
| Dates.DaysInMonth | scripts/script.js:64 | months have 28 to 31 days, with 29 exactly for February of a leap year |
| Dates.NextDay | scripts/script.js:67 | the day after a valid date is a valid date |
| Dates.PrevDay | scripts/script.js:64 | the day before a valid date is a valid date |
| Dates.PrevDayNextDay | scripts/script.js:64-67 | stepping a day forward and back, or back and forward, returns the same date |
| Dates.DayNumberNextDay | scripts/script.js:224 | consecutive days have consecutive day numbers, across month and year ends |
| Dates.Weekday | scripts/script.js:224 | `getDay` is between 0 and 6 |
| Dates.WeekdayNextDay | scripts/script.js:224 | the weekday advances by one modulo 7 each day |
| Dates.WeekdayOfEpoch | scripts/script.js:224 | 1 January 1970 is a Thursday (4) |
| Dates.FormatIso | scripts/script.js:65 | the ISO date text is ten characters long |
| Dates.ParseIsoOfFormatIso | scripts/script.js:224 | reading a written date back gives the date |
| Dates.FormatIsoOfParseIso | scripts/script.js:224 | a date-only string that reads as a date is its own canonical text |
| Dates.ParseIso | scripts/script.js:224 | a string that `new Date` reads as a day is ten characters long and gives a valid date with a four-digit year |
| Dates.MonthKey | scripts/script.js:217 | `slice(0, 7)` is a prefix of length at most seven |
| Dates.MonthKeyOfFormatIso | scripts/script.js:217 | two ISO dates share a month key exactly when they share year and month |
| Entries.KindName | scripts/script.js:200 | a type is written as "income" or "expense" |
| Aggregate.OfKind | scripts/script.js:107 | `filter(t => t.type === k)` keeps exactly the entries of kind k |
| Aggregate.SumAmounts | scripts/script.js:107-108 | `reduce((s,t) => s + t.amount, 0)` is 0 on an empty list, and non-negative when no amount is negative |
| Aggregate.AmountAtMostSum | scripts/script.js:107-108 | with no negative amount, each single amount is at most the sum |
| Aggregate.OfKindAll | scripts/script.js:107-108 | filtering a list whose entries all have kind k by kind k gives the list back |
| Aggregate.KindTotal | scripts/script.js:107-108 | filter-then-reduce is 0 when no entry has the kind, the whole amount sum when every entry has it, and non-negative when no amount is negative |
| Aggregate.SumAmountsConcat | scripts/script.js:107 | the amount sum of a concatenation is the sum of the sums |
| Aggregate.OfKindConcat | scripts/script.js:107 | filtering by kind distributes over concatenation |
| Aggregate.KindTotalConcat | scripts/script.js:106-107 | kind totals add up over a concatenation |
| Aggregate.KindTotalSnoc | scripts/script.js:106-107 | appending an entry adds its amount to its own kind's total only |
| Aggregate.IncomePlusExpense | scripts/script.js:106-107 | income plus expense is the sum of all amounts |
| Aggregate.CalculateDashboard | scripts/script.js:106-112 | income and expense are the kind totals of the whole trail, balance is their difference, their sum is the sum of all amounts, and an empty trail gives zeros |
| Aggregate.DashboardIgnoresFilter | scripts/script.js:106-108 | the totals do not depend on the filtered list passed in |
| Filter.Select | scripts/script.js:119-120 | each entry keeps its multiplicity when it passes the type and search filters and vanishes otherwise |
| Filter.InsertById | scripts/script.js:122 | insertion adds exactly the new element and loses none |
| Filter.InsertByIdSorted | scripts/script.js:122 | inserting into a list in descending id order keeps that order |
| Filter.AppendBelow | scripts/script.js:122 | appending an entry whose id is at most every id keeps descending id order |
| Filter.SortByIdDesc | scripts/script.js:122 | the sort by descending id is a permutation in non-increasing id order |
| Filter.FilterData | scripts/script.js:114-123 | the result holds exactly the trail entries, with multiplicity, that pass the type filter and the lower-cased search on category or description, in non-increasing id order |
| Filter.EmptySearchKeepsType | scripts/script.js:120 | an empty search matches everything, leaving only the type filter |
| Ledger.RemoveId | scripts/script.js:153-154 | `filter(t => t.id !== id)` keeps exactly the entries with another id |
| Ledger.RemoveIdConcat | scripts/script.js:153-154 | removal works piecewise, so the kept entries stay in order |
| Ledger.RemoveIdAbsent | scripts/script.js:153-154 | deleting an id no entry has changes nothing |
| Ledger.RemoveIdIdempotent | scripts/script.js:153-154 | deleting twice is deleting once |
| Ledger.AddThenDeleteRestoresTotals | scripts/script.js:152-156 | adding an entry with a fresh id and deleting that id restores every dashboard total |
| Ledger.FindIndex | scripts/script.js:146 | `findIndex` gives the first index with the id, or -1 when there is none |
| Ledger.PayIndex | scripts/script.js:146-147 | `splice(idx, 1)` removes the first bill with the id, or the last bill when there is none |
| Ledger.PaidRecord | scripts/script.js:148 | the recorded payment equals the bill except for the new id and today's date |
| Ledger.FinalCategory | scripts/script.js:162 | the filed category is the selector's value or the custom text; the selector's value is replaced only when it is the "custom" placeholder, so the placeholder itself is filed only when the custom text is "custom" |
| Ledger.EntryOf | scripts/script.js:161-172 | the category is the selected or custom one, or "General" when that is empty, so it is never empty; the other fields come from the form |
| Ledger.AddsCategory | scripts/script.js:174 | a category is added exactly when the selector is "custom" and the final category is not empty, and the added name is the custom text |
| Ledger.CustomCategoryDuplicates | scripts/script.js:174 | adding a custom category already in the list makes it appear once more |
| Ledger.Store.constructor | scripts/script.js:2-10 | the store starts from the loaded arrays with the categories sorted |
| Ledger.Store.Submit | scripts/script.js:159-184 | a non-empty custom category is appended and the list re-sorted, otherwise the categories are unchanged; a reminder is appended to the bills, any other entry to the trail, and the other array is unchanged |
| Ledger.Store.PayBill | scripts/script.js:145-150 | the bill at PayIndex leaves the bills; the trail gains it with the new id and today's date; the total count is kept and the categories are unchanged |
| Ledger.Store.DeleteEntry | scripts/script.js:152-156 | "trail" removes the id from the trail, any other value from the bills; the other array and the categories are unchanged |
| Charts.AddToBucket | scripts/script.js:210 | `catMap[k] = (catMap[k] \|\| 0) + amount` adds the amount to key k only, adds k to the keys, keeps keys distinct and raises the sum of values by the amount |
| Charts.BucketValue | scripts/script.js:210 | `catMap[k] \|\| 0` is 0 when k is not a key |
| Charts.BucketValueAt | scripts/script.js:210 | with distinct keys, `catMap[k]` for a key k is the total stored under that key |
| Charts.CategorySnoc | scripts/script.js:210 | one more expense adds its amount to its own category only, adds its category to those present and raises the sum by its amount |
| Charts.CategoryBuckets | scripts/script.js:210 | the `forEach` builds distinct keys, exactly the categories present, each holding its category's amount sum, and the values together hold the whole amount sum |
| Charts.CategoryMap | scripts/script.js:209-210 | distinct keys, exactly the categories of the expenses; each value is the expense sum of its category; the values sum to the expense total |
| Charts.AddToMonth | scripts/script.js:217 | an entry adds its amount to its month's income when its type is income and to its month's expense otherwise, and creates the row when missing |
| Charts.RowOf | scripts/script.js:217-220 | `monthly[m]` is a row for month m, and the zero row `{i:0, e:0}` when m has none yet |
| Charts.RowOfAt | scripts/script.js:217-220 | with distinct months, `monthly[m]` for a month that has a row is that row |
| Charts.MonthSnoc | scripts/script.js:217 | one more entry adds its income or expense to its own month only and adds its month to those present |
| Charts.MonthRows | scripts/script.js:217 | one row per month of the trail, distinct, each holding the month's income and expense |
| Charts.IncomesOf | scripts/script.js:220 | the income column has one value per label: that month's income |
| Charts.ExpensesOf | scripts/script.js:220 | the expense column has one value per label: that month's expense |
| Charts.IncomesOfSnoc | scripts/script.js:217 | a new entry raises the income column sum only when its month is listed and its type is income |
| Charts.ExpensesOfSnoc | scripts/script.js:217 | a new entry raises the expense column sum only when its month is listed and its type is not income |
| Charts.IncomeColumnTotal | scripts/script.js:217-220 | over distinct labels covering every month, the income column sums to the income total |
| Charts.ExpenseColumnTotal | scripts/script.js:217-220 | over distinct labels covering every month, the expense column sums to the expense total |
| Charts.DistinctPermutation | scripts/script.js:218 | sorting the month keys keeps them free of duplicates |
| Charts.RowColumns | scripts/script.js:220 | the columns read from the monthly rows are the months' income and expense columns |
| Charts.MonthlyTrend | scripts/script.js:217-220 | labels are strictly ascending and exactly the month keys of the trail; each column holds the month's income or expense, and the columns sum to the income and expense totals |
| Charts.Dated | scripts/script.js:224 | the dated entries are those whose date reads as a date |
| Charts.DayOf | scripts/script.js:224 | an entry has a weekday exactly when its date reads as a date, and it is that date's `getDay` |
| Charts.OneWeekday | scripts/script.js:224 | a dated entry counts in exactly one of the seven buckets, an undated one in none |
| Charts.WeekdaysPartition | scripts/script.js:224 | the seven weekday sums add up to the amount of the dated entries |
| Charts.DatedAll | scripts/script.js:224 | when every date reads as a date, no entry is left out |
| Charts.WeekdaySpendSnoc | scripts/script.js:224 | one more entry adds its amount to its own weekday only |
| Charts.AddToDay | scripts/script.js:224 | `weekly[w] += amount` raises bucket w by the amount and leaves the others |
| Charts.WeekdayBuckets | scripts/script.js:224 | seven fresh buckets, Sunday first, each holding the weekday sum of the entries |
| Charts.WeekTotalOfSpend | scripts/script.js:224 | seven buckets of weekday sums together hold the dated entries' amounts |
| Charts.WeeklyPattern | scripts/script.js:224 | seven fresh buckets, Sunday first, each the expense sum of its weekday; together they hold the dated expenses, which is the whole expense total when every expense date reads |
| Csv.CountConcat | scripts/script.js:200 | character counts add up over concatenation |
| Csv.SplitLength | scripts/script.js:200 | splitting gives one piece more than there are separators |
| Csv.SplitJoin | scripts/script.js:200 | splitting a join gives back the parts when none contains the separator |
| Csv.JoinSplit | scripts/script.js:200 | joining the pieces of a split gives back the text |
| Csv.Join | scripts/script.js:200 | `.join(sep)` of no parts is the empty text and, with SplitJoin and JoinSplit, is undone by splitting |
| Csv.JoinLength | scripts/script.js:200 | a join is as long as its parts together plus one separator fewer than there are parts |
| Csv.Rows | scripts/script.js:200 | one line per trail entry, in trail order |
| Csv.Row | scripts/script.js:200 | a line holds the commas of its date and category plus the three separators, and holds a line break exactly when its date or category does |
| Csv.ParseKindOfKindName | scripts/script.js:200 | the written type reads back as the type |
| Csv.IntToStringPlain | scripts/script.js:200 | a written amount holds no comma and no line break |
| Csv.RowText | scripts/script.js:200 | a line is date, type, category and amount with a comma between each two |
| Csv.RowRoundTrip | scripts/script.js:200 | a line reads back to its entry's record exactly when neither date nor category holds a comma, and otherwise does not read |
| Csv.RowsRoundTrip | scripts/script.js:200 | all lines read back when no date or category holds a comma |
| Csv.Export | scripts/script.js:200 | the export starts with the header line; an empty trail leaves the header and one empty line; with no line break in any date or category, its lines are the header and one line per entry in trail order |
| Csv.ExportRoundTrip | scripts/script.js:200 | the whole export, header included, reads back to the trail's records when no date or category holds a comma or a line break |

## Left out

- Page and browser work are not modelled. This covers DOM rendering, `notify` and `askConfirmation`, dark mode, the reset button, Chart.js, html2pdf, and the Blob download. None of it computes anything the model states.
- Speech capture (lines 15-31) and `localStorage` with JSON (lines 2-4, 238-242) are I/O. The transcript is a parameter, already lower-cased as line 25 does. The loaded arrays are the constructor's parameters. The fallbacks of lines 2-4 are not modelled: an empty trail, no bills, or the seven default categories when storage holds nothing. The constructor takes the arrays after that fallback.
- Ids from `Date.now()` and today's date from `new Date()` are parameters.
- Amounts are integers: fractional amounts, `parseFloat` of a non-numeric text, and the currency formatting `toLocaleString` are not modelled. The parser writes the digit run's value instead of the digit text that later goes through `parseFloat`.
- Time zones are not modelled. The source mixes `toISOString` (UTC) with local `getDate` and `getDay`; the model uses one civil date for today and one weekday per `YYYY-MM-DD` string.
- Only `YYYY-MM-DD` strings with a real calendar day read as dates. Other strings `new Date` would accept count as unreadable.
- `toLowerCase` is modelled for ASCII letters only.
- String order is modelled on code points. JavaScript compares UTF-16 code units, which differ only above U+FFFF.
- An entry's type is Income or Expense, the two values the form offers. The monthly chart's "any other type counts as expense" therefore reduces to the expense case.
- Map order and prototype keys are not modelled. JavaScript objects list integer-like keys first, and keys such as "constructor" hit the prototype. The model keeps insertion order throughout.
- The toast texts and the report's rendering are not modelled.
- Not modelled because the code does not have them: month-over-month change, a spending heatmap, recurring roll-forward, day and month-name date parsing, category and timeframe filters.
- `recurring` is only copied into the entry.
- After a submit the page resets the form and sets its date to today (lines 182-183). The form is a value, so that reset is page work and is not modelled.
- Ledger.Store.PayBill: requires at least one pending bill; with none, the source pushes a record built from `undefined`.
- Parser.WithDate: requires today to be a valid date with a year from 1 to 9998, so that the days before and after it have a four-digit ISO year.
- Parser.ParseNaturalLanguage: requires today to be a valid date with a year from 1 to 9998, inherited from Parser.WithDate; the browser handles any date.
- Filter.SortByIdDesc: the sort is stable, but its contract does not state stability.
- Charts.CategoryMap: the keys are in first-appearance order, but the contract does not state that order.
- Charts.CategoryBuckets: the loop files keys in first-appearance order, as the object literal does, but its contract states only which keys there are, not their order.
- Charts.WeeklyPattern: the buckets equal the expense total only when every expense date reads as a date. An unreadable date indexes `weekly[NaN]` in the source and is lost, which the model also captures.
