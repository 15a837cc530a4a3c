/** `filterData`: a type filter, a case-insensitive search on category or
    description, then a sort by descending id, all on a copy of the trail. */
module Filter {
  import opened Strings
  import opened Entries

  /** The type selector: "all" or one kind. */
  datatype TypeFilter = AllTypes | OnlyKind(kind: Kind)

  predicate TypeMatches(e: Entry, f: TypeFilter) {
    f.AllTypes? || e.kind == f.kind
  }

  /** The lower-cased category or description contains the (lower-case) search term. */
  predicate SearchMatches(e: Entry, search: string) {
    Includes(ToLower(e.category), search) || Includes(ToLower(e.description), search)
  }

  predicate Selected(e: Entry, f: TypeFilter, search: string) {
    TypeMatches(e, f) && SearchMatches(e, search)
  }

  /** The two `filter` calls: the entries that pass, in trail order. */
  function Select(s: seq<Entry>, f: TypeFilter, search: string): (r: seq<Entry>)
    ensures forall e :: multiset(r)[e] == if Selected(e, f, search) then multiset(s)[e] else 0
  {
    if s == [] then []
    else
      var front, last := s[..|s| - 1], s[|s| - 1];
      assert s == front + [last];
      Select(front, f, search) + (if Selected(last, f, search) then [last] else [])
  }

  /** Ids never increase from left to right. */
  predicate ByIdDescending(s: seq<Entry>) {
    forall i, j :: 0 <= i < j < |s| ==> s[i].id >= s[j].id
  }

  /** Insert x after every element whose id is at least x's. */
  function InsertById(s: seq<Entry>, x: Entry): (r: seq<Entry>)
    ensures multiset(r) == multiset(s) + multiset{x}
  {
    if s == [] || s[|s| - 1].id >= x.id then s + [x]
    else
      assert s == s[..|s| - 1] + [s[|s| - 1]];
      InsertById(s[..|s| - 1], x) + [s[|s| - 1]]
  }

  /** Insertion keeps the order by descending id. */
  lemma {:induction false} InsertByIdSorted(s: seq<Entry>, x: Entry)
    requires ByIdDescending(s)
    ensures ByIdDescending(InsertById(s, x))
    decreases |s|
  {
    if s == [] || s[|s| - 1].id >= x.id {
      AppendBelow(s, x);
    } else {
      var front, last := s[..|s| - 1], s[|s| - 1];
      var r' := InsertById(front, x);
      InsertByIdSorted(front, x);
      forall e | e in r' ensures e.id >= last.id {
        assert e in multiset(r');
        assert e in multiset(front) || e == x;
        if e != x {
          assert e in front;
        }
      }
      AppendBelow(r', last);
    }
  }

  /** Appending an element whose id is at most every id keeps the order. */
  lemma AppendBelow(a: seq<Entry>, last: Entry)
    requires ByIdDescending(a)
    requires forall e :: e in a ==> e.id >= last.id
    ensures ByIdDescending(a + [last])
  {
    forall i, j | 0 <= i < j < |a| + 1 ensures (a + [last])[i].id >= (a + [last])[j].id {
      assert (a + [last])[i] == a[i];
      if j == |a| {
        assert a[i] in a;
      }
    }
  }

  /** `data.sort((a, b) => b.id - a.id)`: a stable sort by descending id. */
  function SortByIdDesc(s: seq<Entry>): (r: seq<Entry>)
    ensures multiset(r) == multiset(s)
    ensures ByIdDescending(r)
  {
    if s == [] then []
    else
      assert s == s[..|s| - 1] + [s[|s| - 1]];
      var sorted := SortByIdDesc(s[..|s| - 1]);
      InsertByIdSorted(sorted, s[|s| - 1]);
      InsertById(sorted, s[|s| - 1])
  }

  /** `filterData()` with the type selector `typeF` and the raw search text:
      exactly the trail entries (with their multiplicity) that pass both
      filters, by descending id. The trail itself is a value and is not changed. */
  function FilterData(trail: seq<Entry>, typeF: TypeFilter, searchInput: string): (r: seq<Entry>)
    ensures forall e ::
      multiset(r)[e] == (if Selected(e, typeF, ToLower(searchInput)) then multiset(trail)[e] else 0)
    ensures forall e :: e in r <==> e in trail && Selected(e, typeF, ToLower(searchInput))
    ensures ByIdDescending(r)
  {
    var search := ToLower(searchInput);
    var data := Select(trail, typeF, search);
    var r := SortByIdDesc(data);
    assert forall e :: e in r <==> multiset(r)[e] > 0;
    assert forall e :: e in trail <==> multiset(trail)[e] > 0;
    r
  }

  /** The empty search term matches every entry, so only the type filter remains. */
  lemma EmptySearchKeepsType(trail: seq<Entry>, typeF: TypeFilter)
    ensures forall e :: e in FilterData(trail, typeF, "") <==> e in trail && TypeMatches(e, typeF)
  {
    forall e: Entry ensures Includes(ToLower(e.category), "") {
      assert OccursAt(ToLower(e.category), "", 0);
    }
  }
}
