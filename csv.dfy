/** The CSV export: a fixed header line, then one line per trail entry with
    date, type, category and amount joined by commas and no quoting. The
    reading side (Split, ParseRow, ParseCsv) is the reference the export is
    proved against: it reads back exactly what was written as long as no
    date or category contains a comma or a line break. */
module Csv {
  import opened Options
  import opened Strings
  import opened Entries

  const Header: string := "Date,Type,Category,Amount"

  /** The total length of the parts. */
  function TotalLength(parts: seq<string>): nat {
    if parts == [] then 0 else TotalLength(parts[..|parts| - 1]) + |parts[|parts| - 1]|
  }

  /** `parts.join(sep)`: the parts with one separator between each two; no
      parts give the empty text and a single part is returned unchanged. */
  function Join(parts: seq<string>, sep: char): (r: string)
    ensures parts == [] ==> r == ""
  {
    if parts == [] then ""
    else if |parts| == 1 then parts[0]
    else
      Join(parts[..|parts| - 1], sep) + [sep] + parts[|parts| - 1]
  }

  /** `s.split(sep)` for a one-character separator: the pieces between
      separators, none of which contains the separator. */
  function Split(s: string, sep: char): (r: seq<string>)
    ensures |r| > 0
    ensures forall i :: 0 <= i < |r| ==> sep !in r[i]
  {
    if s == [] then [""]
    else
      var rest := Split(s[..|s| - 1], sep);
      var c := s[|s| - 1];
      if c == sep then rest + [""]
      else rest[..|rest| - 1] + [rest[|rest| - 1] + [c]]
  }

  /** The number of occurrences of c in s. */
  function Count(s: string, c: char): (n: nat)
    ensures n == 0 <==> c !in s
  {
    if s == [] then 0
    else Count(s[..|s| - 1], c) + (if s[|s| - 1] == c then 1 else 0)
  }

  lemma {:induction false} CountConcat(a: string, b: string, c: char)
    ensures Count(a + b, c) == Count(a, c) + Count(b, c)
    decreases |b|
  {
    if b == [] {
      assert a + b == a;
    } else {
      assert (a + b)[..|a + b| - 1] == a + b[..|b| - 1];
      CountConcat(a, b[..|b| - 1], c);
    }
  }

  /** `split` yields one piece more than there are separators. */
  lemma {:induction false} SplitLength(s: string, sep: char)
    ensures |Split(s, sep)| == Count(s, sep) + 1
    decreases |s|
  {
    if s != [] {
      SplitLength(s[..|s| - 1], sep);
    }
  }

  /** Text without the separator extends the last piece. */
  lemma {:induction false} SplitAppendPlain(s: string, p: string, sep: char)
    requires sep !in p
    ensures var r := Split(s, sep);
      Split(s + p, sep) == r[..|r| - 1] + [r[|r| - 1] + p]
    decreases |p|
  {
    var r := Split(s, sep);
    if p == [] {
      assert s + p == s;
      assert r[|r| - 1] + p == r[|r| - 1];
      assert r[..|r| - 1] + [r[|r| - 1]] == r;
    } else {
      var q, c := p[..|p| - 1], p[|p| - 1];
      assert (s + p)[..|s + p| - 1] == s + q;
      SplitAppendPlain(s, q, sep);
      assert r[|r| - 1] + q + [c] == r[|r| - 1] + p;
    }
  }

  /** A separator at the end starts a new, empty piece. */
  lemma SplitAppendSep(s: string, sep: char)
    ensures Split(s + [sep], sep) == Split(s, sep) + [""]
  {
    assert (s + [sep])[..|s|] == s;
  }

  /** A join is as long as its parts together plus one separator fewer
      than there are parts. */
  lemma {:induction false} JoinLength(parts: seq<string>, sep: char)
    requires parts != []
    ensures |Join(parts, sep)| == TotalLength(parts) + |parts| - 1
    decreases |parts|
  {
    if |parts| == 1 {
      assert parts[..0] == [];
    } else {
      JoinLength(parts[..|parts| - 1], sep);
    }
  }

  /** Splitting undoes joining when no part contains the separator. */
  lemma {:induction false} SplitJoin(parts: seq<string>, sep: char)
    requires |parts| > 0
    requires forall i :: 0 <= i < |parts| ==> sep !in parts[i]
    ensures Split(Join(parts, sep), sep) == parts
    decreases |parts|
  {
    if |parts| == 1 {
      SplitAppendPlain([], parts[0], sep);
      assert [] + parts[0] == parts[0];
    } else {
      var front, last := parts[..|parts| - 1], parts[|parts| - 1];
      var j := Join(front, sep) + [sep];
      SplitJoin(front, sep);
      SplitAppendSep(Join(front, sep), sep);
      SplitAppendPlain(j, last, sep);
      assert Split(j, sep) == front + [""];
      assert (front + [""])[..|front|] == front;
      assert "" + last == last;
      assert front + [last] == parts;
    }
  }

  /** Joining undoes splitting, whatever the text. */
  lemma {:induction false} JoinSplit(s: string, sep: char)
    ensures Join(Split(s, sep), sep) == s
    decreases |s|
  {
    if s != [] {
      var front, c := s[..|s| - 1], s[|s| - 1];
      var rest := Split(front, sep);
      JoinSplit(front, sep);
      assert s == front + [c];
      if c == sep {
        assert (rest + [""])[..|rest|] == rest;
        assert Join(rest, sep) + [sep] + "" == s;
      } else {
        var r := rest[..|rest| - 1] + [rest[|rest| - 1] + [c]];
        assert r[..|r| - 1] == rest[..|rest| - 1];
        if |rest| > 1 {
          assert rest[..|rest| - 1] + [rest[|rest| - 1]] == rest;
          assert Join(r, sep) == Join(rest[..|rest| - 1], sep) + [sep] + rest[|rest| - 1] + [c];
        }
      }
    }
  }

  /** One CSV line: `${t.date},${t.type},${t.category},${t.amount}`. Its
      commas are the three separators plus any the date and category bring,
      and it is a single line unless the date or category breaks it. */
  function Row(e: Entry): (r: string)
    ensures Count(r, ',') == Count(e.date, ',') + Count(e.category, ',') + 3
    ensures '\n' in r <==> '\n' in e.date || '\n' in e.category
  {
    IntToStringPlain(e.amount);
    FourFields(e.date, KindName(e.kind), e.category, IntToString(e.amount));
    Join([e.date, KindName(e.kind), e.category, IntToString(e.amount)], ',')
  }

  /** Four fields joined by commas, the second and fourth plain: three
      commas more than the other two bring, and a line break only from them. */
  lemma FourFields(d: string, k: string, c: string, a: string)
    requires ',' !in k && ',' !in a && '\n' !in k && '\n' !in a
    ensures Count(Join([d, k, c, a], ','), ',') == Count(d, ',') + Count(c, ',') + 3
    ensures '\n' in Join([d, k, c, a], ',') <==> '\n' in d || '\n' in c
  {
    JoinFour(d, k, c, a, ',');
    assert Count(k, ',') == 0 && Count(a, ',') == 0;
    CountAround(d, k, ',');
    CountAround(d + [','] + k, c, ',');
    CountAround(d + [','] + k + [','] + c, a, ',');
  }

  /** Joining four parts puts the separator between each two. */
  lemma JoinFour(d: string, k: string, c: string, a: string, sep: char)
    ensures Join([d, k, c, a], sep) == d + [sep] + k + [sep] + c + [sep] + a
  {
    assert [d, k, c, a][..3] == [d, k, c];
    assert [d, k, c][..2] == [d, k];
    assert [d, k][..1] == [d];
    assert Join([d, k], sep) == d + [sep] + k;
    assert Join([d, k, c], sep) == d + [sep] + k + [sep] + c;
  }

  /** The CSV text the export button downloads: the header line, then the
      entries' lines. With no line break in any date or category, splitting it
      at line breaks gives the header and one line per entry in trail order
      (an empty trail leaves one empty line). */
  function Export(trail: seq<Entry>): (r: string)
    ensures |r| > |Header| && r[..|Header| + 1] == Header + "\n"
    ensures trail == [] ==> Split(r, '\n') == [Header, ""]
    ensures trail != [] && (forall e :: e in trail ==> '\n' !in e.date && '\n' !in e.category) ==>
      Split(r, '\n') == [Header] + Rows(trail)
  {
    var rows := Rows(trail);
    var text := Header + "\n" + Join(rows, '\n');
    assert trail == [] ==> Split(text, '\n') == [Header, ""] by {
      if trail == [] {
        assert text == Header + "\n";
        HeaderOnly();
      }
    }
    assert trail != [] && (forall e :: e in trail ==> '\n' !in e.date && '\n' !in e.category) ==>
      Split(text, '\n') == [Header] + rows by {
      if trail != [] && forall e :: e in trail ==> '\n' !in e.date && '\n' !in e.category {
        forall i | 0 <= i < |rows| ensures '\n' !in rows[i] {
          assert trail[i] in trail;
        }
        HeaderAndLines(rows);
      }
    }
    text
  }

  /** Splitting the header line alone gives it and one empty line. */
  lemma HeaderOnly()
    ensures Split(Header + "\n", '\n') == [Header, ""]
  {
    assert '\n' !in Header;
    SplitAppendSep(Header, '\n');
    SplitJoin([Header], '\n');
  }

  /** Splitting the header line followed by joined lines gives them back when
      no line holds a line break. */
  lemma HeaderAndLines(rows: seq<string>)
    requires rows != []
    requires forall i :: 0 <= i < |rows| ==> '\n' !in rows[i]
    ensures Split(Header + "\n" + Join(rows, '\n'), '\n') == [Header] + rows
  {
    var parts := [Header] + rows;
    JoinCons(Header, rows, '\n');
    assert '\n' !in Header;
    forall i | 0 <= i < |parts| ensures '\n' !in parts[i] {
      if i > 0 {
        assert parts[i] == rows[i - 1];
      }
    }
    SplitJoin(parts, '\n');
  }

  function Rows(trail: seq<Entry>): (r: seq<string>)
    ensures |r| == |trail| && forall i :: 0 <= i < |trail| ==> r[i] == Row(trail[i])
  {
    if trail == [] then [] else Rows(trail[..|trail| - 1]) + [Row(trail[|trail| - 1])]
  }

  /** What one CSV line carries of an entry. */
  datatype Record = Record(date: string, kind: Kind, category: string, amount: int)

  function RecordOf(e: Entry): Record {
    Record(e.date, e.kind, e.category, e.amount)
  }

  function Records(trail: seq<Entry>): (r: seq<Record>)
    ensures |r| == |trail| && forall i :: 0 <= i < |trail| ==> r[i] == RecordOf(trail[i])
  {
    if trail == [] then [] else Records(trail[..|trail| - 1]) + [RecordOf(trail[|trail| - 1])]
  }

  function ParseKind(s: string): (r: Option<Kind>)
    ensures r.Some? ==> KindName(r.value) == s
  {
    if s == "income" then Some(Income) else if s == "expense" then Some(Expense) else None
  }

  lemma ParseKindOfKindName(k: Kind)
    ensures ParseKind(KindName(k)) == Some(k)
  {
  }

  /** Read one line back: exactly four comma-separated fields, a known type
      and an integer amount. */
  function ParseRow(line: string): Option<Record> {
    var f := Split(line, ',');
    if |f| != 4 then None
    else match (ParseKind(f[1]), ParseInt(f[3]))
      case (Some(k), Some(n)) => Some(Record(f[0], k, f[2], n))
      case _ => None
  }

  function ParseRows(lines: seq<string>): Option<seq<Record>> {
    if lines == [] then Some([])
    else match (ParseRows(lines[..|lines| - 1]), ParseRow(lines[|lines| - 1]))
      case (Some(rs), Some(r)) => Some(rs + [r])
      case _ => None
  }

  /** Read a whole export back: the header, then either the single empty line
      an empty trail leaves or one line per record. */
  function ParseCsv(csv: string): Option<seq<Record>> {
    var lines := Split(csv, '\n');
    if lines[0] != Header then None
    else if lines[1..] == [""] then Some([])
    else ParseRows(lines[1..])
  }

  lemma IntToStringPlain(i: int)
    ensures ',' !in IntToString(i) && '\n' !in IntToString(i)
  {
    var d := if i < 0 then NatToString(-i) else NatToString(i);
    assert forall k :: 0 <= k < |d| ==> IsDigit(d[k]);
    if i < 0 {
      assert IntToString(i) == "-" + d;
    }
  }

  /** A line spelled out: the four fields with a comma between each two. */
  lemma RowText(e: Entry)
    ensures Row(e) == e.date + [','] + KindName(e.kind) + [','] + e.category + [','] + IntToString(e.amount)
  {
    JoinFour(e.date, KindName(e.kind), e.category, IntToString(e.amount), ',');
  }

  /** A separator between two pieces adds one occurrence. */
  lemma CountAround(a: string, b: string, c: char)
    ensures Count(a + [c] + b, c) == Count(a, c) + Count(b, c) + 1
  {
    CountConcat(a, [c], c);
    CountConcat(a + [c], b, c);
    assert [c][..0] == [];
  }

  /** A line reads back to its entry's record exactly when neither the date
      nor the category contains a comma; otherwise it does not read at all. */
  lemma RowRoundTrip(e: Entry)
    ensures ParseRow(Row(e)) == Some(RecordOf(e)) <==> ',' !in e.date && ',' !in e.category
    ensures ParseRow(Row(e)).Some? <==> ',' !in e.date && ',' !in e.category
  {
    var parts := [e.date, KindName(e.kind), e.category, IntToString(e.amount)];
    SplitLength(Row(e), ',');
    if ',' !in e.date && ',' !in e.category {
      IntToStringPlain(e.amount);
      SplitJoin(parts, ',');
      ParseKindOfKindName(e.kind);
      ParseIntOfIntToString(e.amount);
    }
  }

  /** With no comma in any date or category, and no line break anywhere,
      every line reads back. */
  lemma {:induction false} RowsRoundTrip(trail: seq<Entry>)
    requires forall e :: e in trail ==> ',' !in e.date && ',' !in e.category
    ensures ParseRows(Rows(trail)) == Some(Records(trail))
    decreases |trail|
  {
    if trail != [] {
      var front, last := trail[..|trail| - 1], trail[|trail| - 1];
      var rows := Rows(trail);
      assert forall e :: e in front ==> e in trail;
      RowsRoundTrip(front);
      RowRoundTrip(last);
      assert rows[..|rows| - 1] == Rows(front);
      assert rows[|rows| - 1] == Row(last);
      assert ParseRow(rows[|rows| - 1]) == Some(RecordOf(last));
      assert Records(trail) == Records(front) + [RecordOf(last)];
    }
  }

  /** The export reads back to the trail's records whenever no date or
      category contains a comma or a line break. */
  lemma ExportRoundTrip(trail: seq<Entry>)
    requires forall e :: e in trail ==>
      ',' !in e.date && ',' !in e.category && '\n' !in e.date && '\n' !in e.category
    ensures ParseCsv(Export(trail)) == Some(Records(trail))
  {
    if trail != [] {
      var rows := Rows(trail);
      var lines := Split(Export(trail), '\n');
      assert lines == [Header] + rows;
      assert lines[0] == Header && lines[1..] == rows;
      assert rows != [""] by {
        assert Count(Row(trail[0]), ',') >= 3;
        assert Count("", ',') == 0;
      }
      RowsRoundTrip(trail);
    }
  }

  /** Joining with a first part in front puts it before the separator. */
  lemma {:induction false} JoinCons(x: string, rest: seq<string>, sep: char)
    requires rest != []
    ensures Join([x] + rest, sep) == x + [sep] + Join(rest, sep)
    decreases |rest|
  {
    if |rest| == 1 {
      assert ([x] + rest)[..1] == [x];
    } else {
      var front := rest[..|rest| - 1];
      assert ([x] + rest)[..|rest|] == [x] + front;
      JoinCons(x, front, sep);
    }
  }
}
