/** The chart data `initCharts` builds: spending per category over the
    filtered data, income and expense per month over the whole trail, and
    spending per weekday over the filtered data. JavaScript objects used as
    maps are association lists that keep their keys in insertion order. */
module Charts {
  import opened Options
  import opened Strings
  import opened Dates
  import opened Entries
  import opened Aggregate

  // ----- catMap: spending per category (line 210) -----

  datatype Bucket = Bucket(key: string, total: int)

  function BucketKeys(b: seq<Bucket>): (r: seq<string>)
    ensures |r| == |b| && forall i :: 0 <= i < |b| ==> r[i] == b[i].key
  {
    if b == [] then [] else [b[0].key] + BucketKeys(b[1..])
  }

  predicate DistinctBucketKeys(b: seq<Bucket>) {
    forall i, j :: 0 <= i < j < |b| ==> b[i].key != b[j].key
  }

  /** `catMap[k] || 0`: the total under key k, or 0 when k is not a key. */
  function BucketValue(b: seq<Bucket>, k: string): (r: int)
    ensures (forall i :: 0 <= i < |b| ==> b[i].key != k) ==> r == 0
  {
    if b == [] then 0 else if b[0].key == k then b[0].total else BucketValue(b[1..], k)
  }

  /** With distinct keys, `catMap[k]` is the total of the one bucket keyed k. */
  lemma {:induction false} BucketValueAt(b: seq<Bucket>, i: nat)
    requires DistinctBucketKeys(b)
    requires i < |b|
    ensures BucketValue(b, b[i].key) == b[i].total
    decreases i
  {
    if i > 0 {
      assert b[0].key != b[i].key;
      assert b[1..][i - 1] == b[i];
      BucketValueAt(b[1..], i - 1);
    }
  }

  /** `Object.values(catMap)` summed. */
  function SumTotals(b: seq<Bucket>): int {
    if b == [] then 0 else b[0].total + SumTotals(b[1..])
  }

  /** `catMap[k] = (catMap[k] || 0) + amount`: the bucket for k grows by amount,
      a new key is appended after the existing ones, nothing else changes. */
  function AddToBucket(b: seq<Bucket>, k: string, amount: int): (r: seq<Bucket>)
    requires DistinctBucketKeys(b)
    ensures DistinctBucketKeys(r)
    ensures forall x :: BucketValue(r, x) == BucketValue(b, x) + (if x == k then amount else 0)
    ensures forall x :: x in BucketKeys(r) <==> x in BucketKeys(b) || x == k
    ensures SumTotals(r) == SumTotals(b) + amount
  {
    if b == [] then [Bucket(k, amount)]
    else if b[0].key == k then
      assert k !in BucketKeys(b[1..]);
      [b[0].(total := b[0].total + amount)] + b[1..]
    else
      var rest := AddToBucket(b[1..], k, amount);
      assert b[0].key !in BucketKeys(b[1..]);
      [b[0]] + rest
  }

  /** The sum of the amounts of the entries of s with category c. */
  function CategorySpend(s: seq<Entry>, c: string): int {
    if s == [] then 0
    else CategorySpend(s[..|s| - 1], c) + CategoryPart(s[|s| - 1], c)
  }

  /** What one entry adds to category c. */
  function CategoryPart(t: Entry, c: string): int {
    if t.category == c then t.amount else 0
  }

  /** Some entry of s has category c. */
  predicate HasCategory(s: seq<Entry>, c: string) {
    exists e :: e in s && e.category == c
  }

  /** What the next expense adds to a prefix: its amount to its own
      category, and its category to the categories present. */
  lemma CategorySnoc(s: seq<Entry>, i: nat)
    requires i < |s|
    ensures forall c :: CategorySpend(s[..i + 1], c) == CategorySpend(s[..i], c) + CategoryPart(s[i], c)
    ensures forall c :: HasCategory(s[..i + 1], c) <==> HasCategory(s[..i], c) || c == s[i].category
    ensures SumAmounts(s[..i + 1]) == SumAmounts(s[..i]) + s[i].amount
  {
    assert s[..i + 1] == s[..i] + [s[i]];
    assert s[..i + 1][..i] == s[..i];
    forall c ensures HasCategory(s[..i + 1], c) <==> HasCategory(s[..i], c) || c == s[i].category {
      if c == s[i].category {
        assert s[i] in s[..i + 1];
      }
      if HasCategory(s[..i], c) {
        var e :| e in s[..i] && e.category == c;
        assert e in s[..i + 1];
      }
    }
  }

  /** The doughnut chart's data: one bucket per category of the expenses in
      `data`, holding the sum of their amounts; all buckets together hold
      the total expense of `data`. */
  method CategoryMap(data: seq<Entry>) returns (catMap: seq<Bucket>)
    ensures DistinctBucketKeys(catMap)
    ensures forall c :: BucketValue(catMap, c) == CategorySpend(OfKind(data, Expense), c)
    ensures forall c :: c in BucketKeys(catMap) <==>
      exists e :: e in data && e.kind == Expense && e.category == c
    ensures SumTotals(catMap) == KindTotal(data, Expense)
  {
    var expData := OfKind(data, Expense);
    catMap := CategoryBuckets(expData);
    forall c ensures HasCategory(expData, c) <==> exists e :: e in data && e.kind == Expense && e.category == c {
      if exists e :: e in data && e.kind == Expense && e.category == c {
        var e :| e in data && e.kind == Expense && e.category == c;
        assert e in expData;
      }
    }
  }

  /** The `forEach` of line 210: one bucket per category of `expData`,
      holding the sum of its amounts. */
  method CategoryBuckets(expData: seq<Entry>) returns (catMap: seq<Bucket>)
    ensures DistinctBucketKeys(catMap)
    ensures forall c :: BucketValue(catMap, c) == CategorySpend(expData, c)
    ensures forall c :: c in BucketKeys(catMap) <==> HasCategory(expData, c)
    ensures SumTotals(catMap) == SumAmounts(expData)
  {
    catMap := [];
    var i := 0;
    while i < |expData|
      invariant 0 <= i <= |expData|
      invariant DistinctBucketKeys(catMap)
      invariant forall c :: BucketValue(catMap, c) == CategorySpend(expData[..i], c)
      invariant forall c :: c in BucketKeys(catMap) <==> HasCategory(expData[..i], c)
      invariant SumTotals(catMap) == SumAmounts(expData[..i])
    {
      var e := expData[i];
      CategorySnoc(expData, i);
      catMap := AddToBucket(catMap, e.category, e.amount);
      i := i + 1;
    }
    assert expData[..i] == expData;
  }

  // ----- monthly: income and expense per month (lines 217-218) -----

  datatype MonthRow = MonthRow(key: string, income: int, expense: int)

  /** The keys of the month rows. This repeats BucketKeys for MonthRow; it is
      kept recursive because MonthSnoc's proof unfolds it one row at a time. */
  function RowKeys(rows: seq<MonthRow>): (r: seq<string>)
    ensures |r| == |rows| && forall i :: 0 <= i < |rows| ==> r[i] == rows[i].key
  {
    if rows == [] then [] else [rows[0].key] + RowKeys(rows[1..])
  }

  predicate DistinctRowKeys(rows: seq<MonthRow>) {
    forall i, j :: 0 <= i < j < |rows| ==> rows[i].key != rows[j].key
  }

  /** `monthly[m]`, or zeros when the month has no row. */
  function RowOf(rows: seq<MonthRow>, m: string): (r: MonthRow)
    ensures r.key == m
    ensures (forall i :: 0 <= i < |rows| ==> rows[i].key != m) ==> r == MonthRow(m, 0, 0)
  {
    if rows == [] then MonthRow(m, 0, 0) else if rows[0].key == m then rows[0] else RowOf(rows[1..], m)
  }

  /** With distinct keys, `monthly[m]` is the one row keyed m. */
  lemma {:induction false} RowOfAt(rows: seq<MonthRow>, i: nat)
    requires DistinctRowKeys(rows)
    requires i < |rows|
    ensures RowOf(rows, rows[i].key) == rows[i]
    decreases i
  {
    if i > 0 {
      assert rows[0].key != rows[i].key;
      assert rows[1..][i - 1] == rows[i];
      RowOfAt(rows[1..], i - 1);
    }
  }

  /** The part of an entry's amount that goes to month m's income (i) or
      expense (e): `type === 'income'` selects i, any other type e. */
  function IncomePart(t: Entry, m: string): int {
    if MonthKey(t.date) == m && t.kind == Income then t.amount else 0
  }

  function ExpensePart(t: Entry, m: string): int {
    if MonthKey(t.date) == m && t.kind != Income then t.amount else 0
  }

  /** The body of the `trail.forEach`: create the month's row if missing, then
      add the amount to its income or its expense. */
  function AddToMonth(rows: seq<MonthRow>, t: Entry): (r: seq<MonthRow>)
    requires DistinctRowKeys(rows)
    ensures DistinctRowKeys(r)
    ensures forall m :: RowOf(r, m).income == RowOf(rows, m).income + IncomePart(t, m)
    ensures forall m :: RowOf(r, m).expense == RowOf(rows, m).expense + ExpensePart(t, m)
    ensures forall m :: m in RowKeys(r) <==> m in RowKeys(rows) || m == MonthKey(t.date)
  {
    var m := MonthKey(t.date);
    if rows == [] then
      [if t.kind == Income then MonthRow(m, t.amount, 0) else MonthRow(m, 0, t.amount)]
    else if rows[0].key == m then
      assert m !in RowKeys(rows[1..]);
      var row := rows[0];
      [if t.kind == Income then row.(income := row.income + t.amount)
       else row.(expense := row.expense + t.amount)] + rows[1..]
    else
      var rest := AddToMonth(rows[1..], t);
      assert rows[0].key !in RowKeys(rows[1..]);
      [rows[0]] + rest
  }

  /** Income of month m over s. */
  function MonthIncome(s: seq<Entry>, m: string): int {
    if s == [] then 0 else MonthIncome(s[..|s| - 1], m) + IncomePart(s[|s| - 1], m)
  }

  /** Expense (every non-income entry) of month m over s. */
  function MonthExpense(s: seq<Entry>, m: string): int {
    if s == [] then 0 else MonthExpense(s[..|s| - 1], m) + ExpensePart(s[|s| - 1], m)
  }

  function SumInts(s: seq<int>): int {
    if s == [] then 0 else s[0] + SumInts(s[1..])
  }

  /** The month's income for each label, in label order (`mLabels.map(m => monthly[m].i)`). */
  function IncomesOf(s: seq<Entry>, labels: seq<string>): (r: seq<int>)
    ensures |r| == |labels| && forall j :: 0 <= j < |labels| ==> r[j] == MonthIncome(s, labels[j])
  {
    if labels == [] then [] else [MonthIncome(s, labels[0])] + IncomesOf(s, labels[1..])
  }

  function ExpensesOf(s: seq<Entry>, labels: seq<string>): (r: seq<int>)
    ensures |r| == |labels| && forall j :: 0 <= j < |labels| ==> r[j] == MonthExpense(s, labels[j])
  {
    if labels == [] then [] else [MonthExpense(s, labels[0])] + ExpensesOf(s, labels[1..])
  }

  predicate Distinct(labels: seq<string>) {
    forall i, j :: 0 <= i < j < |labels| ==> labels[i] != labels[j]
  }

  /** Adding one entry to s adds its income part to exactly the label of its
      month, if that label is listed. */
  lemma {:induction false} IncomesOfSnoc(s: seq<Entry>, t: Entry, labels: seq<string>)
    requires Distinct(labels)
    ensures SumInts(IncomesOf(s + [t], labels)) ==
      SumInts(IncomesOf(s, labels)) + (if MonthKey(t.date) in labels && t.kind == Income then t.amount else 0)
  {
    if labels != [] {
      assert (s + [t])[..|s|] == s;
      IncomesOfSnoc(s, t, labels[1..]);
      assert MonthKey(t.date) in labels <==> MonthKey(t.date) == labels[0] || MonthKey(t.date) in labels[1..];
      assert MonthKey(t.date) == labels[0] ==> MonthKey(t.date) !in labels[1..];
    }
  }

  lemma {:induction false} ExpensesOfSnoc(s: seq<Entry>, t: Entry, labels: seq<string>)
    requires Distinct(labels)
    ensures SumInts(ExpensesOf(s + [t], labels)) ==
      SumInts(ExpensesOf(s, labels)) + (if MonthKey(t.date) in labels && t.kind != Income then t.amount else 0)
  {
    if labels != [] {
      assert (s + [t])[..|s|] == s;
      ExpensesOfSnoc(s, t, labels[1..]);
      assert MonthKey(t.date) in labels <==> MonthKey(t.date) == labels[0] || MonthKey(t.date) in labels[1..];
      assert MonthKey(t.date) == labels[0] ==> MonthKey(t.date) !in labels[1..];
    }
  }

  /** Summing the income column over distinct labels that cover every month
      of s gives the income total: each entry is counted in exactly one month. */
  lemma {:induction false} IncomeColumnTotal(s: seq<Entry>, labels: seq<string>)
    requires Distinct(labels)
    requires forall t :: t in s ==> MonthKey(t.date) in labels
    ensures SumInts(IncomesOf(s, labels)) == KindTotal(s, Income)
    decreases |s|
  {
    if s == [] {
      ZeroColumns(s, labels);
    } else {
      var front, last := s[..|s| - 1], s[|s| - 1];
      assert s == front + [last];
      IncomeColumnTotal(front, labels);
      IncomesOfSnoc(front, last, labels);
      KindTotalSnoc(front, last, Income);
    }
  }

  /** The same for the expense column, which takes every non-income entry. */
  lemma {:induction false} ExpenseColumnTotal(s: seq<Entry>, labels: seq<string>)
    requires Distinct(labels)
    requires forall t :: t in s ==> MonthKey(t.date) in labels
    ensures SumInts(ExpensesOf(s, labels)) == KindTotal(s, Expense)
    decreases |s|
  {
    if s == [] {
      ZeroColumns(s, labels);
    } else {
      var front, last := s[..|s| - 1], s[|s| - 1];
      assert s == front + [last];
      ExpenseColumnTotal(front, labels);
      ExpensesOfSnoc(front, last, labels);
      KindTotalSnoc(front, last, Expense);
    }
  }

  lemma {:induction false} ZeroColumns(s: seq<Entry>, labels: seq<string>)
    requires s == []
    ensures SumInts(IncomesOf(s, labels)) == 0 && SumInts(ExpensesOf(s, labels)) == 0
  {
    if labels != [] {
      ZeroColumns(s, labels[1..]);
    }
  }

  /** Some entry of s falls in month m. */
  predicate HasMonth(s: seq<Entry>, m: string) {
    exists t :: t in s && MonthKey(t.date) == m
  }

  /** What the next entry adds to a prefix: its parts to its own month, and
      its month to the months present. */
  lemma MonthSnoc(s: seq<Entry>, i: nat)
    requires i < |s|
    ensures forall m :: MonthIncome(s[..i + 1], m) == MonthIncome(s[..i], m) + IncomePart(s[i], m)
    ensures forall m :: MonthExpense(s[..i + 1], m) == MonthExpense(s[..i], m) + ExpensePart(s[i], m)
    ensures forall m :: HasMonth(s[..i + 1], m) <==> HasMonth(s[..i], m) || m == MonthKey(s[i].date)
  {
    assert s[..i + 1] == s[..i] + [s[i]];
    assert s[..i + 1][..i] == s[..i];
    forall m ensures HasMonth(s[..i + 1], m) <==> HasMonth(s[..i], m) || m == MonthKey(s[i].date) {
      if m == MonthKey(s[i].date) {
        assert s[i] in s[..i + 1];
      }
      if HasMonth(s[..i], m) {
        var t :| t in s[..i] && MonthKey(t.date) == m;
        assert t in s[..i + 1];
      }
    }
  }

  /** The monthly map of `initCharts`: one row per month of the trail, with
      the month's income and expense. */
  method MonthRows(trail: seq<Entry>) returns (monthly: seq<MonthRow>)
    ensures DistinctRowKeys(monthly)
    ensures forall m :: RowOf(monthly, m).income == MonthIncome(trail, m)
    ensures forall m :: RowOf(monthly, m).expense == MonthExpense(trail, m)
    ensures forall m :: m in RowKeys(monthly) <==> HasMonth(trail, m)
  {
    monthly := [];
    var i := 0;
    while i < |trail|
      invariant 0 <= i <= |trail|
      invariant DistinctRowKeys(monthly)
      invariant forall m :: RowOf(monthly, m).income == MonthIncome(trail[..i], m)
      invariant forall m :: RowOf(monthly, m).expense == MonthExpense(trail[..i], m)
      invariant forall m :: m in RowKeys(monthly) <==> HasMonth(trail[..i], m)
    {
      MonthSnoc(trail, i);
      monthly := AddToMonth(monthly, trail[i]);
      i := i + 1;
    }
    assert trail[..i] == trail;
  }

  /** The bar chart's data: the months of the trail as strictly ascending
      labels, and for each label the month's income and expense; the two
      columns sum to the trail's income and expense totals. */
  method MonthlyTrend(trail: seq<Entry>) returns (labels: seq<string>, incomes: seq<int>, expenses: seq<int>)
    ensures StrictlyAscending(labels)
    ensures forall m :: m in labels <==> exists t :: t in trail && MonthKey(t.date) == m
    ensures |incomes| == |labels| && |expenses| == |labels|
    ensures forall j :: 0 <= j < |labels| ==>
      incomes[j] == MonthIncome(trail, labels[j]) && expenses[j] == MonthExpense(trail, labels[j])
    ensures SumInts(incomes) == KindTotal(trail, Income)
    ensures SumInts(expenses) == KindTotal(trail, Expense)
  {
    var monthly := MonthRows(trail);
    var keys := RowKeys(monthly);
    labels := SortStrings(keys);
    assert forall m :: m in labels <==> m in keys by {
      forall m ensures m in labels <==> m in keys {
        assert m in labels <==> m in multiset(labels);
        assert m in keys <==> m in multiset(keys);
      }
    }
    assert Distinct(labels) by {
      assert Distinct(keys);
      DistinctPermutation(keys, labels);
    }
    SortedDistinctIsStrict(labels);
    // `mLabels.map(m => monthly[m].i)` and `.e`: the columns are read from the rows
    incomes := seq(|labels|, j requires 0 <= j < |labels| => RowOf(monthly, labels[j]).income);
    expenses := seq(|labels|, j requires 0 <= j < |labels| => RowOf(monthly, labels[j]).expense);
    RowColumns(trail, monthly, labels);
    IncomeColumnTotal(trail, labels);
    ExpenseColumnTotal(trail, labels);
  }

  /** Columns read from rows that hold each month's income and expense are
      those months' income and expense columns. */
  lemma RowColumns(trail: seq<Entry>, monthly: seq<MonthRow>, labels: seq<string>)
    requires forall m :: RowOf(monthly, m).income == MonthIncome(trail, m)
    requires forall m :: RowOf(monthly, m).expense == MonthExpense(trail, m)
    ensures seq(|labels|, j requires 0 <= j < |labels| => RowOf(monthly, labels[j]).income) ==
            IncomesOf(trail, labels)
    ensures seq(|labels|, j requires 0 <= j < |labels| => RowOf(monthly, labels[j]).expense) ==
            ExpensesOf(trail, labels)
  {
  }

  /** Reordering keeps a sequence free of duplicates. */
  lemma DistinctPermutation(a: seq<string>, b: seq<string>)
    requires Distinct(a) && multiset(a) == multiset(b)
    ensures Distinct(b)
  {
    forall i, j | 0 <= i < j < |b| ensures b[i] != b[j] {
      var x := b[i];
      assert b == b[..i] + [b[i]] + b[i + 1..j] + [b[j]] + b[j + 1..];
      assert x in multiset(a);
      DistinctCount(a, x);
    }
  }

  lemma {:induction false} DistinctCount(a: seq<string>, x: string)
    requires Distinct(a) && x in a
    ensures multiset(a)[x] == 1
  {
    var k :| 0 <= k < |a| && a[k] == x;
    assert a == a[..k] + [x] + a[k + 1..];
    assert x !in a[..k] && x !in a[k + 1..];
    assert multiset(a[..k])[x] == 0 && multiset(a[k + 1..])[x] == 0;
  }

  // ----- weekly: spending per weekday (line 224) -----

  /** `new Date(t.date).getDay()`: the weekday of the entry's date, or None
      when the date does not read as a date (`getDay()` is NaN). */
  function DayOf(t: Entry): (r: Option<int>)
    ensures r.Some? <==> ParseIso(t.date).Some?
    ensures r.Some? ==> 0 <= r.value < 7 && r.value == Weekday(ParseIso(t.date).value)
  {
    match ParseIso(t.date)
    case Some(day) => Some(Weekday(day))
    case None => None
  }

  /** The amount of t that goes to weekday bucket d: entries without a
      weekday go to no bucket. */
  function WeekdayPart(t: Entry, d: int): int {
    if DayOf(t) == Some(d) then t.amount else 0
  }

  function WeekdaySpend(s: seq<Entry>, d: int): int {
    if s == [] then 0 else WeekdaySpend(s[..|s| - 1], d) + WeekdayPart(s[|s| - 1], d)
  }

  /** The entries of s whose date reads as a calendar date. */
  function Dated(s: seq<Entry>): (r: seq<Entry>)
    ensures forall t :: t in r <==> t in s && ParseIso(t.date).Some?
  {
    if s == [] then []
    else Dated(s[..|s| - 1]) + (if ParseIso(s[|s| - 1].date).Some? then [s[|s| - 1]] else [])
  }

  function WeekTotal(w: seq<int>): int
    requires |w| == 7
  {
    w[0] + w[1] + w[2] + w[3] + w[4] + w[5] + w[6]
  }

  /** One entry lands in exactly one of the seven weekday buckets when its
      date reads as a date, in none otherwise. */
  lemma OneWeekday(t: Entry)
    ensures WeekdayPart(t, 0) + WeekdayPart(t, 1) + WeekdayPart(t, 2) + WeekdayPart(t, 3) +
            WeekdayPart(t, 4) + WeekdayPart(t, 5) + WeekdayPart(t, 6) ==
            (if ParseIso(t.date).Some? then t.amount else 0)
  {
    var w := DayOf(t);
  }

  /** Every dated entry lands in exactly one of the seven weekday buckets. */
  lemma {:induction false} WeekdaysPartition(s: seq<Entry>)
    ensures WeekdaySpend(s, 0) + WeekdaySpend(s, 1) + WeekdaySpend(s, 2) + WeekdaySpend(s, 3) +
            WeekdaySpend(s, 4) + WeekdaySpend(s, 5) + WeekdaySpend(s, 6) == SumAmounts(Dated(s))
    decreases |s|
  {
    if s != [] {
      var front, t := s[..|s| - 1], s[|s| - 1];
      WeekdaysPartition(front);
      OneWeekday(t);
      var tail := if ParseIso(t.date).Some? then [t] else [];
      assert Dated(s) == Dated(front) + tail;
      SumAmountsConcat(Dated(front), tail);
      assert SumAmounts(tail) == if ParseIso(t.date).Some? then t.amount else 0 by {
        if tail != [] {
          assert tail[..0] == [];
        }
      }
    }
  }

  /** When every date reads as a date, nothing is left out of the buckets. */
  lemma {:induction false} DatedAll(s: seq<Entry>)
    requires forall t :: t in s ==> ParseIso(t.date).Some?
    ensures Dated(s) == s
    decreases |s|
  {
    if s != [] {
      var front := s[..|s| - 1];
      assert s == front + [s[|s| - 1]];
      DatedAll(front);
    }
  }

  /** `weekly[w] += amount`. */
  method AddToDay(weekly: array<int>, w: int, amount: int)
    requires 0 <= w < weekly.Length
    modifies weekly
    ensures weekly[w] == old(weekly[w]) + amount
    ensures forall d :: 0 <= d < weekly.Length && d != w ==> weekly[d] == old(weekly[d])
  {
    weekly[w] := weekly[w] + amount;
  }

  /** The weekday sums of a prefix grow by the next entry's part. */
  lemma WeekdaySpendSnoc(s: seq<Entry>, i: nat)
    requires i < |s|
    ensures forall d :: WeekdaySpend(s[..i + 1], d) == WeekdaySpend(s[..i], d) + WeekdayPart(s[i], d)
  {
    assert s[..i + 1][..i] == s[..i];
  }

  /** The weekday buckets of `initCharts`: seven counters, Sunday first,
      each holding the weekday sum of s. */
  method WeekdayBuckets(s: seq<Entry>) returns (weekly: array<int>)
    ensures fresh(weekly) && weekly.Length == 7
    ensures forall d :: 0 <= d < 7 ==> weekly[d] == WeekdaySpend(s, d)
  {
    weekly := new int[7](_ => 0);
    var i := 0;
    while i < |s|
      invariant 0 <= i <= |s|
      invariant forall d :: 0 <= d < 7 ==> weekly[d] == WeekdaySpend(s[..i], d)
    {
      WeekdaySpendSnoc(s, i);
      var day := DayOf(s[i]);
      if day.Some? {
        AddToDay(weekly, day.value, s[i].amount);
      }
      i := i + 1;
    }
    assert s[..i] == s;
  }

  /** The line chart's data: seven buckets, Sunday first, each holding the
      spending of `data` on that weekday; together they hold the spending of
      every expense whose date reads as a date. */
  method WeeklyPattern(data: seq<Entry>) returns (weekly: array<int>)
    ensures fresh(weekly) && weekly.Length == 7
    ensures forall d :: 0 <= d < 7 ==> weekly[d] == WeekdaySpend(OfKind(data, Expense), d)
    ensures WeekTotal(weekly[..]) == SumAmounts(Dated(OfKind(data, Expense)))
    ensures (forall t :: t in data && t.kind == Expense ==> ParseIso(t.date).Some?) ==>
      WeekTotal(weekly[..]) == KindTotal(data, Expense)
  {
    var expData := OfKind(data, Expense);
    weekly := WeekdayBuckets(expData);
    WeekTotalOfSpend(expData, weekly[..]);
    if forall t :: t in data && t.kind == Expense ==> ParseIso(t.date).Some? {
      DatedAll(expData);
    }
  }

  /** Seven buckets holding the weekday sums of s hold the spending of the
      dated entries of s. */
  lemma WeekTotalOfSpend(s: seq<Entry>, w: seq<int>)
    requires |w| == 7
    requires forall d :: 0 <= d < 7 ==> w[d] == WeekdaySpend(s, d)
    ensures WeekTotal(w) == SumAmounts(Dated(s))
  {
    WeekdaysPartition(s);
  }
}
