/** The column sort of content/content.js: clicking a header cell sorts
    the body rows by that column and marks the header. */
module ContentTable {
  import opened JsText

  /** A table body row: the texts of its cells. */
  type Row = seq<string>

  /** A header cell: its classes and its text. */
  datatype Header = Header(classes: set<string>, text: string)

  /** `a.localeCompare(b)`, replaced by the order of code points. */
  function CompareText(a: string, b: string): (r: int)
    ensures r in {-1, 0, 1}
    ensures r == 0 <==> a == b
  {
    if a == [] && b == [] then 0
    else if a == [] then -1
    else if b == [] then 1
    else if a[0] < b[0] then -1
    else if a[0] > b[0] then 1
    else
      var r := CompareText(a[1..], b[1..]);
      assert a == [a[0]] + a[1..] && b == [b[0]] + b[1..];
      r
  }

  lemma {:induction false} CompareTextAntisymmetric(a: string, b: string)
    ensures CompareText(a, b) == -CompareText(b, a)
  {
    if a != [] && b != [] && a[0] == b[0] {
      CompareTextAntisymmetric(a[1..], b[1..]);
    }
  }

  /** The comparator of `sortTable` on two cells: numerically when both
      trimmed texts start with a number, as text otherwise; the
      arguments swap when descending. */
  function CompareCells(x: string, y: string, ascending: bool): (r: int)
    ensures r in {-1, 0, 1}
  {
    var a := Trim(x);
    var b := Trim(y);
    CompareParsed(a, b, ParseFloat(a), ParseFloat(b), ascending)
  }

  /** The comparator on two trimmed cells and what `parseFloat` made of
      them. */
  function CompareParsed(a: string, b: string, pa: Option<Decimal>, pb: Option<Decimal>, ascending: bool): (r: int)
    ensures r in {-1, 0, 1}
  {
    match (pa, pb)
    case (Some(m), Some(n)) => if ascending then CompareDecimal(m, n) else CompareDecimal(n, m)
    case _ => if ascending then CompareText(a, b) else CompareText(b, a)
  }

  /** Swapping the cells negates the comparison, and descending is
      ascending with the cells swapped. */
  lemma CompareCellsAntisymmetric(x: string, y: string, ascending: bool)
    ensures CompareCells(x, y, ascending) == -CompareCells(y, x, ascending)
    ensures CompareCells(x, y, false) == CompareCells(y, x, true)
  {
    var a, b := Trim(x), Trim(y);
    CompareParsedAntisymmetric(a, b, ParseFloat(a), ParseFloat(b), ascending);
    CompareParsedAntisymmetric(a, b, ParseFloat(a), ParseFloat(b), false);
  }

  lemma CompareParsedAntisymmetric(a: string, b: string, pa: Option<Decimal>, pb: Option<Decimal>, ascending: bool)
    ensures CompareParsed(a, b, pa, pb, ascending) == -CompareParsed(b, a, pb, pa, ascending)
    ensures CompareParsed(a, b, pa, pb, false) == CompareParsed(b, a, pb, pa, true)
  {
    if pa.Some? && pb.Some? {
      CompareDecimalAntisymmetric(pa.value, pb.value);
    } else {
      CompareTextAntisymmetric(a, b);
    }
  }

  /** Two cells that both start with a number compare by value, whatever
      text follows; otherwise they compare as text. */
  lemma CellsCompareByKind(x: string, y: string)
    ensures ParseFloat(Trim(x)).Some? && ParseFloat(Trim(y)).Some? ==>
      CompareCells(x, y, true) == CompareDecimal(ParseFloat(Trim(x)).value, ParseFloat(Trim(y)).value)
    ensures ParseFloat(Trim(x)).None? || ParseFloat(Trim(y)).None? ==>
      CompareCells(x, y, true) == CompareText(Trim(x), Trim(y))
  {
    var a, b := Trim(x), Trim(y);
    var pa, pb := ParseFloat(a), ParseFloat(b);
    assert CompareCells(x, y, true) == CompareParsed(a, b, pa, pb, true);
  }

  /** The comparator `rows.sort` is given for a direction. */
  function CellComparator(ascending: bool): (string, string) -> int {
    (a, b) => CompareCells(a, b, ascending)
  }

  /** Swapping the arguments negates the result. */
  ghost predicate Antisymmetric(cmp: (string, string) -> int) {
    forall a, b :: cmp(a, b) == -cmp(b, a)
  }

  lemma CellComparatorAntisymmetric(ascending: bool)
    ensures Antisymmetric(CellComparator(ascending))
  {
    forall a, b
      ensures CellComparator(ascending)(a, b) == -CellComparator(ascending)(b, a)
    {
      CompareCellsAntisymmetric(a, b, ascending);
    }
  }

  /** Every row has a cell in column `col`. */
  predicate HasColumn(rows: seq<Row>, col: nat) {
    forall k :: 0 <= k < |rows| ==> col < |rows[k]|
  }

  /** Row `a` may come before row `b`. */
  predicate InOrder(a: Row, b: Row, col: nat, cmp: (string, string) -> int) {
    col < |a| && col < |b| && cmp(a[col], b[col]) <= 0
  }

  /** Neighbouring rows are in the comparator's order. */
  ghost predicate Ordered(rows: seq<Row>, col: nat, cmp: (string, string) -> int) {
    forall i, j :: 0 <= i < j < |rows| && j == i + 1 ==> InOrder(rows[i], rows[j], col, cmp)
  }

  /** The sort of `rows.sort`: each row is inserted after the rows that do
      not compare above it. */
  method SortRows(rows: seq<Row>, col: nat, cmp: (string, string) -> int) returns (sorted: seq<Row>)
    requires HasColumn(rows, col) && Antisymmetric(cmp)
    ensures multiset(sorted) == multiset(rows)
    ensures Ordered(sorted, col, cmp)
    ensures HasColumn(sorted, col)
  {
    sorted := [];
    for i := 0 to |rows|
      invariant multiset(sorted) == multiset(rows[..i])
      invariant Ordered(sorted, col, cmp) && HasColumn(sorted, col)
    {
      var x := rows[i];
      var j := InsertionPoint(sorted, x, col, cmp);
      InsertOrdered(sorted, j, x, col, cmp);
      InsertPermutes(sorted, j, x);
      TakeSnoc(rows, i);
      sorted := sorted[..j] + [x] + sorted[j..];
    }
    assert rows[..|rows|] == rows;
  }

  /** The scan from the end for the place of `x`: past every row that
      compares above it. */
  method InsertionPoint(sorted: seq<Row>, x: Row, col: nat, cmp: (string, string) -> int) returns (j: int)
    requires HasColumn(sorted, col) && col < |x|
    ensures 0 <= j <= |sorted|
    ensures j > 0 ==> cmp(sorted[j - 1][col], x[col]) <= 0
    ensures j < |sorted| ==> cmp(sorted[j][col], x[col]) > 0
  {
    j := |sorted|;
    while j > 0 && cmp(sorted[j - 1][col], x[col]) > 0
      invariant 0 <= j <= |sorted|
      invariant forall k :: j <= k < |sorted| ==> cmp(sorted[k][col], x[col]) > 0
    {
      j := j - 1;
    }
  }

  lemma InsertPermutes(sorted: seq<Row>, j: int, x: Row)
    requires 0 <= j <= |sorted|
    ensures multiset(sorted[..j] + [x] + sorted[j..]) == multiset(sorted) + multiset{x}
  {
    assert sorted == sorted[..j] + sorted[j..];
  }

  /** Inserting where the scan stopped keeps the rows ordered. */
  lemma InsertOrdered(sorted: seq<Row>, j: int, x: Row, col: nat, cmp: (string, string) -> int)
    requires Ordered(sorted, col, cmp) && HasColumn(sorted, col) && col < |x| && Antisymmetric(cmp)
    requires 0 <= j <= |sorted|
    requires j > 0 ==> cmp(sorted[j - 1][col], x[col]) <= 0
    requires j < |sorted| ==> cmp(sorted[j][col], x[col]) > 0
    ensures Ordered(sorted[..j] + [x] + sorted[j..], col, cmp)
    ensures HasColumn(sorted[..j] + [x] + sorted[j..], col)
  {
    var s := sorted[..j] + [x] + sorted[j..];
    assert forall k :: 0 <= k < |s| ==> s[k] == (if k < j then sorted[k] else if k == j then x else sorted[k - 1]);
    if j < |sorted| {
      assert cmp(x[col], sorted[j][col]) == -cmp(sorted[j][col], x[col]);
    }
    forall a, b | 0 <= a < b < |s| && b == a + 1
      ensures InOrder(s[a], s[b], col, cmp)
    {
      if b < j {
        assert s[a] == sorted[a] && s[b] == sorted[b];
      } else if a > j {
        assert s[a] == sorted[a - 1] && s[b] == sorted[a];
      }
    }
  }

  /** `th.innerHTML.replace(/ [↑↓]/g, '')`: every " ↑" and " ↓" found
      scanning from the left is removed. */
  function RemoveArrows(s: string): (r: string)
    ensures |r| <= |s|
  {
    if |s| >= 2 && s[0] == ' ' && (s[1] == '↑' || s[1] == '↓') then RemoveArrows(s[2..])
    else if s == [] then []
    else [s[0]] + RemoveArrows(s[1..])
  }

  /** A text without the space that starts an arrow is left alone. */
  lemma {:induction false} RemoveArrowsOfPlain(s: string)
    requires ' ' !in s
    ensures RemoveArrows(s) == s
  {
    if s != [] {
      RemoveArrowsOfPlain(s[1..]);
    }
  }

  /** The arrow the sort appends is removed by the next sort, whatever
      comes before it. */
  lemma {:induction false} RemoveAppendedArrow(t: string, arrow: char)
    requires arrow == '↑' || arrow == '↓'
    ensures RemoveArrows(t + [' ', arrow]) == RemoveArrows(t)
  {
    if t == [] {
      assert RemoveArrows([' ', arrow]) == RemoveArrows([]);
    } else if |t| >= 2 && t[0] == ' ' && (t[1] == '↑' || t[1] == '↓') {
      assert (t + [' ', arrow])[2..] == t[2..] + [' ', arrow];
      RemoveAppendedArrow(t[2..], arrow);
    } else if t == [' '] {
      assert [' '] + [' ', arrow] == [' ', ' ', arrow];
      assert [' ', ' ', arrow][1..] == [' ', arrow];
      assert RemoveArrows([' ', arrow]) == RemoveArrows([]);
    } else {
      assert (t + [' ', arrow])[1..] == t[1..] + [' ', arrow];
      RemoveAppendedArrow(t[1..], arrow);
    }
  }

  const SortClasses: set<string> := {"sort-asc", "sort-desc"}

  /** The sort direction a click takes: ascending unless the header has
      `sort-desc`. */
  predicate ClickAscending(classes: set<string>) {
    "sort-desc" !in classes
  }

  /** The classes of the clicked header after a sort. */
  function ClickedClasses(classes: set<string>): (r: set<string>)
    ensures r * SortClasses == {if ClickAscending(classes) then "sort-asc" else "sort-desc"}
    ensures r - SortClasses == classes - SortClasses
  {
    (classes - SortClasses) + {if ClickAscending(classes) then "sort-asc" else "sort-desc"}
  }

  /** The classes after `n` clicks on the same header. */
  function Clicks(classes: set<string>, n: nat): set<string> {
    if n == 0 then classes else ClickedClasses(Clicks(classes, n - 1))
  }

  /** The direction never flips: once a header is sorted ascending, every
      further click sorts ascending again, and a header that starts
      without `sort-desc` never gets it. */
  lemma {:induction false} ClicksStayAscending(classes: set<string>, n: nat)
    requires ClickAscending(classes)
    ensures ClickAscending(Clicks(classes, n))
    ensures n > 0 ==> "sort-asc" in Clicks(classes, n)
  {
    if n > 0 {
      ClicksStayAscending(classes, n - 1);
    }
  }

  /** The header cells and the body rows of a table; `sortTable` is given
      the index of the clicked header, which is also the column. */
  class SortableTable {
    var headers: seq<Header>
    var rows: seq<Row>

    constructor (headers: seq<Header>, rows: seq<Row>)
      ensures this.headers == headers && this.rows == rows
    {
      this.headers := headers;
      this.rows := rows;
    }

    /** `sortTable`. Every header loses its sort classes and arrows; the
        rows are sorted by column `h`, ascending unless the header had
        `sort-desc`; the header gets the class and arrow of the direction.
        With two rows or more, a row without cell `h` makes the comparator
        throw (`threw`): the rows stay and the header gets nothing. */
    method SortTable(h: nat) returns (threw: bool)
      requires h < |headers|
      modifies this
      ensures |headers| == |old(headers)|
      ensures forall k :: 0 <= k < |headers| && k != h ==>
        headers[k] == Header(old(headers)[k].classes - SortClasses, RemoveArrows(old(headers)[k].text))
      ensures threw <==> |old(rows)| >= 2 && !HasColumn(old(rows), h)
      ensures threw ==> (rows == old(rows)
        && headers[h] == Header(old(headers)[h].classes - SortClasses, RemoveArrows(old(headers)[h].text)))
      ensures !threw ==> (multiset(rows) == multiset(old(rows))
        && Ordered(rows, h, CellComparator(ClickAscending(old(headers)[h].classes)))
        && headers[h] == Header(ClickedClasses(old(headers)[h].classes),
             RemoveArrows(old(headers)[h].text) + [' ', if ClickAscending(old(headers)[h].classes) then '↑' else '↓']))
    {
      var isAscending := "sort-desc" !in headers[h].classes;
      for k := 0 to |headers|
        invariant |headers| == |old(headers)|
        invariant forall m :: 0 <= m < k ==>
          headers[m] == Header(old(headers)[m].classes - SortClasses, RemoveArrows(old(headers)[m].text))
        invariant forall m :: k <= m < |headers| ==> headers[m] == old(headers)[m]
        invariant rows == old(rows)
      {
        headers := headers[k := Header(headers[k].classes - SortClasses, RemoveArrows(headers[k].text))];
      }
      if |rows| >= 2 && !HasColumn(rows, h) {
        threw := true;
        return;
      }
      threw := false;
      if |rows| >= 2 {
        CellComparatorAntisymmetric(isAscending);
        rows := SortRows(rows, h, CellComparator(isAscending));
      }
      headers := headers[h := Header(headers[h].classes + {if isAscending then "sort-asc" else "sort-desc"},
        headers[h].text + [' ', if isAscending then '↑' else '↓'])];
    }
  }
}
