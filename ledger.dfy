/** The ledger store: the three global arrays `trail`, `pendingBills` and
    `cats`, and the operations that change them (the form-submit handler,
    `payBill` and `deleteEntry`). Ids and today's date are parameters. */
module Ledger {
  import opened Strings
  import opened Dates
  import opened Entries
  import opened Parser
  import opened Aggregate

  // ----- deleteEntry -----

  /** `s.filter(t => t.id !== id)`. */
  function RemoveId(s: seq<Entry>, id: int): (r: seq<Entry>)
    ensures |r| <= |s|
    ensures forall e :: e in r <==> e in s && e.id != id
  {
    if s == [] then []
    else RemoveId(s[..|s| - 1], id) + (if s[|s| - 1].id != id then [s[|s| - 1]] else [])
  }

  /** Removal works piecewise: with RemoveId([e], id) being [e] or [], this
      says that the kept entries stay in their original order. */
  lemma {:induction false} RemoveIdConcat(a: seq<Entry>, b: seq<Entry>, id: int)
    ensures RemoveId(a + b, id) == RemoveId(a, id) + RemoveId(b, id)
    decreases |b|
  {
    if b == [] {
      assert a + b == a;
    } else {
      assert (a + b)[..|a + b| - 1] == a + b[..|b| - 1];
      RemoveIdConcat(a, b[..|b| - 1], id);
    }
  }

  /** Deleting an id that no entry has changes nothing. */
  lemma {:induction false} RemoveIdAbsent(s: seq<Entry>, id: int)
    requires forall e :: e in s ==> e.id != id
    ensures RemoveId(s, id) == s
    decreases |s|
  {
    if s != [] {
      var front := s[..|s| - 1];
      assert s == front + [s[|s| - 1]];
      RemoveIdAbsent(front, id);
    }
  }

  /** Deleting twice is deleting once. */
  lemma RemoveIdIdempotent(s: seq<Entry>, id: int)
    ensures RemoveId(RemoveId(s, id), id) == RemoveId(s, id)
  {
    RemoveIdAbsent(RemoveId(s, id), id);
  }

  /** Adding an entry with a fresh id and then deleting that id restores
      every dashboard total. */
  lemma AddThenDeleteRestoresTotals(trail: seq<Entry>, e: Entry, k: Kind)
    requires forall t :: t in trail ==> t.id != e.id
    ensures KindTotal(RemoveId(trail + [e], e.id), k) == KindTotal(trail, k)
  {
    RemoveIdConcat(trail, [e], e.id);
    RemoveIdAbsent(trail, e.id);
    assert RemoveId([e], e.id) == [] by {
      assert [e][..0] == [];
    }
    assert trail + [] == trail;
  }

  // ----- payBill -----

  /** `s.findIndex(b => b.id === id)`: the first index with that id, or -1. */
  function FindIndex(s: seq<Entry>, id: int): (r: int)
    ensures -1 <= r < |s|
    ensures r >= 0 ==> s[r].id == id && forall j :: 0 <= j < r ==> s[j].id != id
    ensures r == -1 ==> forall j :: 0 <= j < |s| ==> s[j].id != id
  {
    if s == [] then -1
    else if s[0].id == id then 0
    else
      var r := FindIndex(s[1..], id);
      if r == -1 then -1 else r + 1
  }

  /** The index `splice(FindIndex(s, id), 1)` removes: the bill with that id,
      or, when there is none, the last bill (a start of -1 counts from the end). */
  function PayIndex(s: seq<Entry>, id: int): (i: nat)
    requires |s| > 0
    ensures i < |s|
    ensures (exists j :: 0 <= j < |s| && s[j].id == id) ==>
      s[i].id == id && forall j :: 0 <= j < i ==> s[j].id != id
    ensures (forall j :: 0 <= j < |s| ==> s[j].id != id) ==> i == |s| - 1
  {
    var idx := FindIndex(s, id);
    if idx < 0 then |s| + idx else idx
  }

  /** The ledger record a paid bill becomes: the bill with a new id and date. */
  function PaidRecord(bill: Entry, newId: int, today: string): (t: Entry)
    ensures t.id == newId && t.date == today
    ensures t.(id := bill.id, date := bill.date) == bill
  {
    bill.(id := newId, date := today)
  }

  // ----- the form-submit handler -----

  /** `catVal === 'custom' ? customCategory : catVal`. */
  function FinalCategory(form: Form): (r: string)
    ensures r == form.category || r == form.customCategory
    ensures r != form.category ==> form.category == "custom"
    ensures r == "custom" ==> form.customCategory == "custom"
  {
    if form.category == "custom" then form.customCategory else form.category
  }

  /** The entry the submit handler builds; an empty category becomes "General",
      so a stored category is never empty. */
  function EntryOf(form: Form, id: int): (e: Entry)
    ensures e.category != ""
    ensures FinalCategory(form) != "" ==> e.category == FinalCategory(form)
    ensures FinalCategory(form) == "" ==> e.category == "General"
    ensures e.id == id && e.kind == form.kind && e.amount == form.amount && e.date == form.date
    ensures e.description == form.description && e.recurring == form.recurring
  {
    var finalCat := FinalCategory(form);
    Entry(id, form.kind, form.amount, form.date,
          if finalCat == "" then "General" else finalCat,
          form.description, form.recurring)
  }

  /** Whether the submit handler adds a category: a non-empty custom one,
      with no check for duplicates. */
  function AddsCategory(form: Form): (b: bool)
    ensures b <==> form.category == "custom" && FinalCategory(form) != ""
    ensures b ==> FinalCategory(form) == form.customCategory
  {
    form.category == "custom" && form.customCategory != ""
  }

  /** The custom category is added with no duplicate check: a name already in
      the list appears once more afterwards. */
  lemma CustomCategoryDuplicates(cats: seq<string>, name: string)
    ensures multiset(SortStrings(cats + [name]))[name] == multiset(cats)[name] + 1
    ensures |SortStrings(cats + [name])| == |cats| + 1
  {
    assert multiset(cats + [name]) == multiset(cats) + multiset{name};
  }

  class Store {
    var trail: seq<Entry>
    var pendingBills: seq<Entry>
    var cats: seq<string>

    /** `cats` is kept in sorted order: `populateDropdowns` sorts it in place
        at start-up and after every insertion. */
    ghost predicate Valid()
      reads this
    {
      SortedStrings(cats)
    }

    /** Start-up on the loaded arrays: `init()` sorts the categories. */
    constructor (loadedTrail: seq<Entry>, loadedBills: seq<Entry>, loadedCats: seq<string>)
      ensures Valid()
      ensures trail == loadedTrail && pendingBills == loadedBills
      ensures cats == SortStrings(loadedCats)
    {
      trail := loadedTrail;
      pendingBills := loadedBills;
      cats := SortStrings(loadedCats);
    }

    /** The form-submit handler: build the entry with the given id, record a new
        custom category, and route the entry to the reminders or the trail. */
    method Submit(form: Form, id: int)
      requires Valid()
      modifies this
      ensures Valid()
      ensures AddsCategory(form) ==> cats == SortStrings(old(cats) + [form.customCategory])
      ensures !AddsCategory(form) ==> cats == old(cats)
      ensures form.reminder ==>
        pendingBills == old(pendingBills) + [EntryOf(form, id)] && trail == old(trail)
      ensures !form.reminder ==>
        trail == old(trail) + [EntryOf(form, id)] && pendingBills == old(pendingBills)
    {
      var entry := EntryOf(form, id);
      if AddsCategory(form) {
        cats := SortStrings(cats + [form.customCategory]);
      }
      if form.reminder {
        pendingBills := pendingBills + [entry];
      } else {
        trail := trail + [entry];
      }
    }

    /** `payBill(id)`: take the bill out of `pendingBills` and append it to `trail`
        with the new id and today's date (`toISOString().split('T')[0]`). */
    method PayBill(id: int, newId: int, today: Date)
      requires Valid()
      requires |pendingBills| > 0
      requires IsValid(today) && IsIsoYear(today)
      modifies this
      ensures Valid()
      ensures var i := PayIndex(old(pendingBills), id);
        pendingBills == old(pendingBills)[..i] + old(pendingBills)[i + 1..] &&
        trail == old(trail) + [PaidRecord(old(pendingBills)[i], newId, FormatIso(today))]
      ensures |trail| + |pendingBills| == old(|trail| + |pendingBills|)
      ensures cats == old(cats)
    {
      var i := PayIndex(pendingBills, id);
      var bill := pendingBills[i];
      pendingBills := pendingBills[..i] + pendingBills[i + 1..];
      trail := trail + [PaidRecord(bill, newId, FormatIso(today))];
    }

    /** `deleteEntry(id, type)`: "trail" filters the trail, any other value the
        reminders. */
    method DeleteEntry(id: int, which: string)
      requires Valid()
      modifies this
      ensures Valid()
      ensures which == "trail" ==> trail == RemoveId(old(trail), id) && pendingBills == old(pendingBills)
      ensures which != "trail" ==> pendingBills == RemoveId(old(pendingBills), id) && trail == old(trail)
      ensures cats == old(cats)
    {
      if which == "trail" {
        trail := RemoveId(trail, id);
      } else {
        pendingBills := RemoveId(pendingBills, id);
      }
    }
  }
}
