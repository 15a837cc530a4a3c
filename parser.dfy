/** The voice-transcript parser (`parseNaturalLanguage`): it scans a lower-case
    sentence for an amount, a type, a category and a relative date, and
    overwrites each form field only when its cue is present. */
module Parser {
  import opened Options
  import opened Strings
  import opened Dates
  import opened Entries

  /** The fields of the transaction form. `amount` is the number the amount
      input holds, as `parseFloat` will read it; `category` is the selector's
      value ("custom" selects the free-text `customCategory`); `customShown`
      is whether the free-text group is displayed. */
  datatype Form = Form(
    kind: Kind,
    amount: int,
    date: string,
    category: string,
    customCategory: string,
    customShown: bool,
    description: string,
    recurring: bool,
    reminder: bool)

  // ----- 1. Amount: `text.match(/\d+/)` -----

  /** The first index at or after i that holds a digit. */
  function FirstDigitFrom(text: string, i: nat): (r: Option<nat>)
    requires i <= |text|
    ensures r.Some? ==> i <= r.value < |text| && IsDigit(text[r.value])
    ensures r.Some? ==> forall k :: i <= k < r.value ==> !IsDigit(text[k])
    ensures r.None? ==> forall k :: i <= k < |text| ==> !IsDigit(text[k])
    decreases |text| - i
  {
    if i == |text| then None
    else if IsDigit(text[i]) then Some(i)
    else FirstDigitFrom(text, i + 1)
  }

  /** The end of the run of digits that starts at j. */
  function DigitRunEnd(text: string, j: nat): (e: nat)
    requires j <= |text|
    ensures j <= e <= |text|
    ensures forall k :: j <= k < e ==> IsDigit(text[k])
    ensures e < |text| ==> !IsDigit(text[e])
    decreases |text| - j
  {
    if j < |text| && IsDigit(text[j]) then DigitRunEnd(text, j + 1) else j
  }

  /** The span [start, end) that `/\d+/` matches: the leftmost digit, extended
      as far as the digits go. None exactly when the text has no digit. */
  function AmountSpan(text: string): (r: Option<(nat, nat)>)
    ensures r.Some? ==> r.value.0 < r.value.1 <= |text|
    ensures r.Some? ==> AllDigits(text[r.value.0..r.value.1])
    ensures r.Some? ==> forall k :: 0 <= k < r.value.0 ==> !IsDigit(text[k])
    ensures r.Some? ==> r.value.1 == |text| || !IsDigit(text[r.value.1])
    ensures r.None? <==> forall k :: 0 <= k < |text| ==> !IsDigit(text[k])
  {
    match FirstDigitFrom(text, 0)
    case None => None
    case Some(s) => Some((s, DigitRunEnd(text, s)))
  }

  /** The amount the parser writes: the value of the first maximal digit run. */
  function ExtractAmount(text: string): (r: Option<nat>)
    ensures r.None? <==> AmountSpan(text).None?
    ensures r.Some? ==>
      r.value == DigitsValue(text[AmountSpan(text).value.0..AmountSpan(text).value.1])
  {
    match AmountSpan(text)
    case None => None
    case Some((s, e)) => Some(DigitsValue(text[s..e]))
  }

  // ----- 2. Type: the expense and income cue lists -----

  const ExpenseCues: seq<string> := ["expenditure", "expense", "spent", "spending", "paid", "gave"]
  const IncomeCues: seq<string> := ["income", "salary", "earned", "got", "received"]

  /** Some word of the list occurs in the text. */
  predicate HasCue(text: string, words: seq<string>) {
    exists i :: 0 <= i < |words| && Includes(text, words[i])
  }

  /** `words.some(w => text.includes(w))`. */
  function AnyCue(text: string, words: seq<string>): (b: bool)
    ensures b <==> HasCue(text, words)
  {
    if words == [] then false
    else
      assert forall i :: 1 <= i < |words| ==> words[i] == words[1..][i - 1];
      Includes(text, words[0]) || AnyCue(text, words[1..])
  }

  /** The type the parser writes: an expense cue wins over an income cue. */
  function ExtractKind(text: string): (r: Option<Kind>)
    ensures HasCue(text, ExpenseCues) ==> r == Some(Expense)
    ensures !HasCue(text, ExpenseCues) && HasCue(text, IncomeCues) ==> r == Some(Income)
    ensures !HasCue(text, ExpenseCues) && !HasCue(text, IncomeCues) ==> r == None
  {
    if AnyCue(text, ExpenseCues) then Some(Expense)
    else if AnyCue(text, IncomeCues) then Some(Income)
    else None
  }

  // ----- 3. Category: a known category, else the "for ..." phrase -----

  /** The category at index i is, in lower case, a substring of the text. */
  predicate NamesCategory(text: string, cats: seq<string>, i: nat)
    requires i < |cats|
  {
    Includes(text, ToLower(cats[i]))
  }

  /** The first index at or after i whose category the text names. */
  function FindCategoryFrom(text: string, cats: seq<string>, i: nat): (r: Option<nat>)
    requires i <= |cats|
    ensures r.Some? ==> i <= r.value < |cats| && NamesCategory(text, cats, r.value)
    ensures r.Some? ==> forall j :: i <= j < r.value ==> !NamesCategory(text, cats, j)
    ensures r.None? ==> forall j :: i <= j < |cats| ==> !NamesCategory(text, cats, j)
    decreases |cats| - i
  {
    if i == |cats| then None
    else if NamesCategory(text, cats, i) then Some(i)
    else FindCategoryFrom(text, cats, i + 1)
  }

  /** `cats.find(c => text.includes(c.toLowerCase()))`, as an index into cats. */
  function FindCategory(text: string, cats: seq<string>): (r: Option<nat>)
    ensures r.Some? ==> r.value < |cats| && NamesCategory(text, cats, r.value)
    ensures r.Some? ==> forall j :: 0 <= j < r.value ==> !NamesCategory(text, cats, j)
    ensures r.None? ==> forall j :: 0 <= j < |cats| ==> !NamesCategory(text, cats, j)
  {
    FindCategoryFrom(text, cats, 0)
  }

  /** `if (foundCat)`: a category was found and its name is not the empty
      string, which JavaScript treats as false. */
  predicate CategoryFound(text: string, cats: seq<string>): (b: bool)
    ensures b <==> exists i :: 0 <= i < |cats| && NamesCategory(text, cats, i) && cats[i] != "" &&
                              (forall j :: 0 <= j < i ==> !NamesCategory(text, cats, j))
    ensures (forall i :: 0 <= i < |cats| ==> cats[i] != "") ==>
      (b <==> exists i :: 0 <= i < |cats| && NamesCategory(text, cats, i))
  {
    var f := FindCategory(text, cats);
    f.Some? && cats[f.value] != ""
  }

  /** An empty category name occurs in every text, so when no category before
      it matches, `find` stops there and `if (foundCat)` fails: no category
      after it is ever selected, and the custom phrase is tried instead. */
  lemma EmptyCategoryStopsSearch(text: string, cats: seq<string>, j: nat)
    requires j < |cats| && cats[j] == ""
    requires forall i :: 0 <= i < j ==> !NamesCategory(text, cats, i)
    ensures FindCategory(text, cats) == Some(j)
    ensures !CategoryFound(text, cats)
  {
    assert ToLower(cats[j]) == "";
    assert OccursAt(text, "", 0);
    assert NamesCategory(text, cats, j);
  }

  /** `cats` is kept sorted, so the category `find` returns is the
      alphabetically first of those the text names. */
  lemma FirstFoundIsLeast(text: string, cats: seq<string>, j: nat)
    requires SortedStrings(cats)
    requires FindCategory(text, cats).Some?
    requires j < |cats| && NamesCategory(text, cats, j)
    ensures StrLeq(cats[FindCategory(text, cats).value], cats[j])
  {
    SortedPairs(cats, FindCategory(text, cats).value, j);
  }

  /** The characters `.` does not match in a JavaScript regular expression. */
  predicate IsLineTerminator(c: char) {
    c == '\n' || c == '\r' || c == '\U{2028}' || c == '\U{2029}'
  }

  /** No line terminator in text[a..b]. */
  predicate NoLineBreak(text: string, a: nat, b: nat)
    requires a <= b <= |text|
  {
    forall i :: a <= i < b ==> !IsLineTerminator(text[i])
  }

  /** ` (and|at|on|$)` matches at index k: a space, then "and", "at" or "on"
      (not necessarily a whole word) or the end of the text. */
  predicate ClosesAt(text: string, k: nat) {
    k < |text| && text[k] == ' ' &&
    (OccursAt(text, "and", k + 1) || OccursAt(text, "at", k + 1) ||
     OccursAt(text, "on", k + 1) || k + 1 == |text|)
  }

  /** The lazy group `(.*?)` that starts at g, tried at end k and then longer:
      the first end at which the closing part matches, provided no line
      terminator is passed on the way. */
  function LazyGroupEnd(text: string, g: nat, k: nat): (r: Option<nat>)
    requires g <= k <= |text|
    requires NoLineBreak(text, g, k)
    requires forall j :: g <= j < k ==> !ClosesAt(text, j)
    ensures r.Some? ==> k <= r.value < |text| && ClosesAt(text, r.value)
    ensures r.Some? ==> NoLineBreak(text, g, r.value)
    ensures r.Some? ==> forall j :: g <= j < r.value ==> !ClosesAt(text, j)
    ensures r.None? ==> forall j :: g <= j < |text| && NoLineBreak(text, g, j) ==> !ClosesAt(text, j)
    decreases |text| - k
  {
    if ClosesAt(text, k) then Some(k)
    else if k == |text| || IsLineTerminator(text[k]) then None
    else LazyGroupEnd(text, g, k + 1)
  }

  /** `for (.*?) (and|at|on|$)` matches when started at index p. */
  predicate MatchesAt(text: string, p: nat) {
    OccursAt(text, "for ", p) && LazyGroupEnd(text, p + 4, p + 4).Some?
  }

  /** The pattern matches at p and at no earlier position. */
  predicate LeftmostMatch(text: string, p: nat) {
    p <= |text| && MatchesAt(text, p) && forall q :: 0 <= q < p ==> !MatchesAt(text, q)
  }

  /** The leftmost start at or after `from` where the pattern matches, with the
      end of its group. */
  function CustomMatchFrom(text: string, from: nat): (r: Option<(nat, nat)>)
    requires from <= |text|
    ensures r.Some? ==> from <= r.value.0 && r.value.0 + 4 <= r.value.1 < |text|
    ensures r.Some? ==> MatchesAt(text, r.value.0)
    ensures r.Some? ==> LazyGroupEnd(text, r.value.0 + 4, r.value.0 + 4) == Some(r.value.1)
    ensures r.Some? ==> forall q :: from <= q < r.value.0 ==> !MatchesAt(text, q)
    ensures r.None? ==> forall q :: from <= q <= |text| ==> !MatchesAt(text, q)
    decreases |text| - from
  {
    if MatchesAt(text, from) then Some((from, LazyGroupEnd(text, from + 4, from + 4).value))
    else if from == |text| then None
    else CustomMatchFrom(text, from + 1)
  }

  /** `text.match(/for (.*?) (and|at|on|$)/)[1].trim()`: the shortest phrase after
      the leftmost matching "for ", with its surrounding whitespace removed. */
  function CustomPhrase(text: string): (r: Option<string>)
    ensures r.Some? <==> exists p :: 0 <= p <= |text| && MatchesAt(text, p)
    ensures forall p: nat :: LeftmostMatch(text, p) ==>
      r == Some(Trim(text[p + 4..LazyGroupEnd(text, p + 4, p + 4).value]))
  {
    var m := CustomMatchFrom(text, 0);
    if m.None? then None else Some(Trim(text[m.value.0 + 4..m.value.1]))
  }

  // ----- 4. Date: "yesterday" before "tomorrow" -----

  /** The date the parser writes, relative to today: one day back when the
      text says "yesterday", else one day ahead when it says "tomorrow". */
  function ExtractDate(text: string, today: Date): (r: Option<Date>)
    requires IsValid(today)
    ensures r.None? <==> !Includes(text, "yesterday") && !Includes(text, "tomorrow")
    ensures r.Some? ==> IsValid(r.value)
    ensures Includes(text, "yesterday") ==>
      DayNumber(r.value) + 1 == DayNumber(today) && NextDay(r.value) == today
    ensures !Includes(text, "yesterday") && Includes(text, "tomorrow") ==>
      DayNumber(r.value) == DayNumber(today) + 1 && PrevDay(r.value) == today
  {
    PrevDayNextDay(today);
    DayNumberNextDay(today);
    DayNumberNextDay(PrevDay(today));
    if Includes(text, "yesterday") then Some(PrevDay(today))
    else if Includes(text, "tomorrow") then Some(NextDay(today))
    else None
  }

  // ----- The whole parser -----

  /** Step 1: the amount field. */
  function WithAmount(form: Form, text: string): (r: Form)
    ensures r == form.(amount := r.amount)
    ensures r.amount == if ExtractAmount(text).Some? then ExtractAmount(text).value else form.amount
  {
    match ExtractAmount(text)
    case Some(n) => form.(amount := n)
    case None => form
  }

  /** Step 2: the type field. */
  function WithKind(form: Form, text: string): (r: Form)
    ensures r == form.(kind := r.kind)
    ensures r.kind == if ExtractKind(text).Some? then ExtractKind(text).value else form.kind
  {
    match ExtractKind(text)
    case Some(k) => form.(kind := k)
    case None => form
  }

  /** Step 3: the category selector, or the free-text custom category. */
  function WithCategory(form: Form, text: string, cats: seq<string>): (r: Form)
    ensures r == form.(category := r.category, customCategory := r.customCategory,
                       customShown := r.customShown)
    ensures CategoryFound(text, cats) ==>
      r.category == cats[FindCategory(text, cats).value] &&
      r.customCategory == form.customCategory && r.customShown == form.customShown
    ensures !CategoryFound(text, cats) && CustomPhrase(text).Some? ==>
      r.category == "custom" && r.customCategory == CustomPhrase(text).value && r.customShown
    ensures !CategoryFound(text, cats) && CustomPhrase(text).None? ==> r == form
  {
    if CategoryFound(text, cats) then form.(category := cats[FindCategory(text, cats).value])
    else
      match CustomPhrase(text)
      case Some(phrase) => form.(category := "custom", customShown := true, customCategory := phrase)
      case None => form
  }

  /** Step 4: the date field, written as `YYYY-MM-DD`. */
  function WithDate(form: Form, text: string, today: Date): (r: Form)
    requires IsValid(today) && 0 < today.year < 9999
    ensures r == form.(date := r.date)
    ensures r.date == if ExtractDate(text, today).Some? then FormatIso(ExtractDate(text, today).value)
                      else form.date
  {
    match ExtractDate(text, today)
    case Some(d) => form.(date := FormatIso(d))
    case None => form
  }

  /** `parseNaturalLanguage(text)`: the form after the four updates, in order.
      `cats` is the category list and `today` the local date. */
  function ParseNaturalLanguage(text: string, cats: seq<string>, form: Form, today: Date): (r: Form)
    requires IsValid(today) && 0 < today.year < 9999
    // amount: the first maximal digit run, or unchanged without a digit
    ensures AmountSpan(text).Some? ==>
      var (s, e) := AmountSpan(text).value; r.amount == DigitsValue(text[s..e])
    ensures (forall k :: 0 <= k < |text| ==> !IsDigit(text[k])) ==> r.amount == form.amount
    // type: expense cues first, then income cues, else unchanged
    ensures HasCue(text, ExpenseCues) ==> r.kind == Expense
    ensures !HasCue(text, ExpenseCues) && HasCue(text, IncomeCues) ==> r.kind == Income
    ensures !HasCue(text, ExpenseCues) && !HasCue(text, IncomeCues) ==> r.kind == form.kind
    // category: the first named category unless its name is empty, else the custom phrase, else unchanged
    ensures CategoryFound(text, cats) ==>
      r.category == cats[FindCategory(text, cats).value] &&
      r.customCategory == form.customCategory && r.customShown == form.customShown
    ensures !CategoryFound(text, cats) && CustomPhrase(text).Some? ==>
      r.category == "custom" && r.customCategory == CustomPhrase(text).value && r.customShown
    ensures !CategoryFound(text, cats) && CustomPhrase(text).None? ==>
      r.category == form.category && r.customCategory == form.customCategory &&
      r.customShown == form.customShown
    // date: yesterday first, then tomorrow, else unchanged
    ensures Includes(text, "yesterday") ==> r.date == FormatIso(PrevDay(today))
    ensures !Includes(text, "yesterday") && Includes(text, "tomorrow") ==>
      r.date == FormatIso(NextDay(today))
    ensures !Includes(text, "yesterday") && !Includes(text, "tomorrow") ==> r.date == form.date
    // the remaining fields are not touched
    ensures r.description == form.description && r.recurring == form.recurring &&
            r.reminder == form.reminder
  {
    var f1 := WithAmount(form, text);
    var f2 := WithKind(f1, text);
    var f3 := WithCategory(f2, text, cats);
    WithDate(f3, text, today)
  }
}
