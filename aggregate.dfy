/** The dashboard totals (`calculateDashboard`): `filter` by type, then
    `reduce` the amounts. */
module Aggregate {
  import opened Entries

  /** `s.filter(t => t.type === k)`. */
  function OfKind(s: seq<Entry>, k: Kind): (r: seq<Entry>)
    ensures |r| <= |s|
    ensures forall e {:trigger e in r} :: e in r <==> e in s && e.kind == k
  {
    if s == [] then []
    else OfKind(s[..|s| - 1], k) + (if s[|s| - 1].kind == k then [s[|s| - 1]] else [])
  }

  /** `s.reduce((acc, t) => acc + t.amount, 0)`. */
  function SumAmounts(s: seq<Entry>): (r: int)
    ensures s == [] ==> r == 0
    ensures (forall e :: e in s ==> e.amount >= 0) ==> r >= 0
  {
    if s == [] then 0
    else
      assert forall e :: e in s[..|s| - 1] ==> e in s;
      SumAmounts(s[..|s| - 1]) + s[|s| - 1].amount
  }

  /** With no negative amount, each single amount is at most the sum. */
  lemma {:induction false} AmountAtMostSum(s: seq<Entry>, e: Entry)
    requires forall t :: t in s ==> t.amount >= 0
    requires e in s
    ensures e.amount <= SumAmounts(s)
    decreases |s|
  {
    var front := s[..|s| - 1];
    assert forall t :: t in front ==> t in s;
    if e != s[|s| - 1] {
      assert s == front + [s[|s| - 1]];
      AmountAtMostSum(front, e);
    }
  }

  lemma {:induction false} SumAmountsConcat(a: seq<Entry>, b: seq<Entry>)
    ensures SumAmounts(a + b) == SumAmounts(a) + SumAmounts(b)
    decreases |b|
  {
    if b != [] {
      assert (a + b)[..|a + b| - 1] == a + b[..|b| - 1];
      SumAmountsConcat(a, b[..|b| - 1]);
    } else {
      assert a + b == a;
    }
  }

  lemma {:induction false} OfKindConcat(a: seq<Entry>, b: seq<Entry>, k: Kind)
    ensures OfKind(a + b, k) == OfKind(a, k) + OfKind(b, k)
    decreases |b|
  {
    if b != [] {
      assert (a + b)[..|a + b| - 1] == a + b[..|b| - 1];
      OfKindConcat(a, b[..|b| - 1], k);
    } else {
      assert a + b == a;
    }
  }

  /** A list holding only entries of kind k filters to itself. */
  lemma OfKindAll(s: seq<Entry>, k: Kind)
    requires forall e :: e in s ==> e.kind == k
    ensures OfKind(s, k) == s
  {
    OfKindAllAt(s, k);
  }

  lemma {:induction false} OfKindAllAt(s: seq<Entry>, k: Kind)
    requires forall i :: 0 <= i < |s| ==> s[i].kind == k
    ensures OfKind(s, k) == s
    decreases |s|
  {
    if s != [] {
      var front := s[..|s| - 1];
      OfKindAllAt(front, k);
      assert front + [s[|s| - 1]] == s;
    }
  }

  /** The sum of the amounts of the entries of kind k: zero when no entry has
      kind k, the whole sum when every entry has it. */
  function KindTotal(s: seq<Entry>, k: Kind): (r: int)
    ensures (forall e :: e in s ==> e.kind != k) ==> r == 0
    ensures (forall e :: e in s ==> e.kind == k) ==> r == SumAmounts(s)
    ensures (forall e :: e in s ==> e.amount >= 0) ==> 0 <= r
  {
    var f := OfKind(s, k);
    assert f != [] ==> f[0] in f;
    assert forall e :: e in f ==> e in s;
    if forall e :: e in s ==> e.kind == k then
      OfKindAll(s, k);
      SumAmounts(f)
    else
      SumAmounts(f)
  }

  /** Kind totals add up over a concatenation, so appending an entry adds
      its amount to its own kind only. */
  lemma KindTotalConcat(a: seq<Entry>, b: seq<Entry>, k: Kind)
    ensures KindTotal(a + b, k) == KindTotal(a, k) + KindTotal(b, k)
  {
    OfKindConcat(a, b, k);
    SumAmountsConcat(OfKind(a, k), OfKind(b, k));
  }

  /** Appending one entry adds its amount to the total of its own kind only. */
  lemma KindTotalSnoc(s: seq<Entry>, t: Entry, k: Kind)
    ensures KindTotal(s + [t], k) == KindTotal(s, k) + (if t.kind == k then t.amount else 0)
  {
    KindTotalConcat(s, [t], k);
    assert [t][..0] == [];
  }

  /** Every entry is income or expense: the two totals partition the amounts. */
  lemma {:induction false} IncomePlusExpense(s: seq<Entry>)
    ensures KindTotal(s, Income) + KindTotal(s, Expense) == SumAmounts(s)
    decreases |s|
  {
    if s != [] {
      var front, last := s[..|s| - 1], s[|s| - 1];
      assert s == front + [last];
      IncomePlusExpense(front);
      KindTotalSnoc(front, last, Income);
      KindTotalSnoc(front, last, Expense);
    }
  }

  datatype Totals = Totals(income: int, expense: int, balance: int)

  /** `calculateDashboard(data)`: the income, expense and balance of the WHOLE
      trail; the filtered `data` it is called with is not consulted. */
  function CalculateDashboard(trail: seq<Entry>, data: seq<Entry>): (r: Totals)
    ensures r.balance == r.income - r.expense
    ensures r.income + r.expense == SumAmounts(trail)
    ensures r.income == KindTotal(trail, Income) && r.expense == KindTotal(trail, Expense)
    ensures trail == [] ==> r == Totals(0, 0, 0)
  {
    var inc := KindTotal(trail, Income);
    var exp := KindTotal(trail, Expense);
    IncomePlusExpense(trail);
    Totals(inc, exp, inc - exp)
  }

  /** The dashboard does not depend on the filtered list it is given. */
  lemma DashboardIgnoresFilter(trail: seq<Entry>, data1: seq<Entry>, data2: seq<Entry>)
    ensures CalculateDashboard(trail, data1) == CalculateDashboard(trail, data2)
  {
  }
}
