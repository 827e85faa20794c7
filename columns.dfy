/** Rows of a transaction table page (icscards-pdf-to-csv.py:338-362 and
    431-454): each line of characters becomes either one free-text cell
    (a bold line) or one cell per column, a character going to the column
    whose left boundary is the greatest one at or left of it. */
module Columns {
  import opened Base
  import opened Text
  import opened Sorting
  import opened Lines
  import opened Boundaries

  /** `is_sentence_line(chars, boundaries)`: the line is set in a bold font,
      judged by its first character. Python's `boundaries` argument is unused. */
  predicate IsSentenceLine(chars: seq<Token>) {
    chars != [] && EndsWith(Lower(chars[0].fontname), "-bold")
  }

  /** For a font named `name-weight` with a four-letter weight, the line is
      a sentence line exactly when the weight is "bold" in any case. */
  lemma SentenceLineByFont(chars: seq<Token>, name: string, weight: string)
    requires chars != [] && |weight| == 4 && chars[0].fontname == name + "-" + weight
    ensures IsSentenceLine(chars) <==> Lower(weight) == "bold"
  {
    var f := chars[0].fontname;
    var tail := Lower(f)[|f| - 5..];
    assert tail == "-" + Lower(weight) by {
      forall k | 0 <= k < 5
        ensures tail[k] == ("-" + Lower(weight))[k]
      {
        if k > 0 {
          assert f[|f| - 5 + k] == weight[k - 1];
        }
      }
    }
    if tail == "-bold" {
      assert Lower(weight) == tail[1..];
    }
  }

  /** The texts of the characters, in order. */
  function Texts(chars: seq<Token>): (r: seq<string>)
    ensures |r| == |chars| && forall k :: 0 <= k < |chars| ==> r[k] == chars[k].text
  {
    seq(|chars|, k requires 0 <= k < |chars| => chars[k].text)
  }

  // ---------------------------------------------------------------------
  // Which column a character belongs to.

  /** An entry of `boundaries_dict`: a column's left boundary and its index. */
  datatype Edge = Edge(left: real, index: nat)

  /** Python's tuple order on `(left, index)`, as "at least". */
  predicate EdgeAtLeast(a: Edge, b: Edge) {
    a.left > b.left || (a.left == b.left && a.index >= b.index)
  }

  lemma EdgeAtLeastIsTotalPreorder()
    ensures IsTotalPreorder(EdgeAtLeast)
  {
  }

  function EdgesOf(bs: seq<real>): (r: seq<Edge>)
    ensures |r| == |bs| && forall i :: 0 <= i < |bs| ==> r[i] == Edge(bs[i], i)
  {
    seq(|bs|, i requires 0 <= i < |bs| => Edge(bs[i], i))
  }

  /** `boundaries_dict` after `sort(reverse=True)`. */
  function SortedEdges(bs: seq<real>): seq<Edge> {
    SortDescending(EdgesOf(bs), EdgeAtLeast)
  }

  /** `get_column_index(x0)`: the index of the first edge at or left of
      `x0`, or 0 when there is none. */
  function ColumnIndex(edges: seq<Edge>, x0: real): (c: nat)
    ensures edges == [] ==> c == 0
    ensures edges != [] && x0 >= edges[0].left ==> c == edges[0].index
  {
    if edges == [] then 0
    else if x0 >= edges[0].left then edges[0].index
    else ColumnIndex(edges[1..], x0)
  }

  /** The column of a character at `x0`. */
  function Column(bs: seq<real>, x0: real): nat {
    ColumnIndex(SortedEdges(bs), x0)
  }

  /** The intended rule, independently of the sort: `c` is the column whose
      boundary is the greatest one at or left of `x0` (on a tie, the later
      column), or column 0 when `x0` lies left of every boundary. */
  predicate IsColumnOf(bs: seq<real>, x0: real, c: nat) {
    if exists j :: 0 <= j < |bs| && bs[j] <= x0 then
      c < |bs| && bs[c] <= x0 &&
      forall j :: 0 <= j < |bs| && bs[j] <= x0 ==> bs[j] < bs[c] || (bs[j] == bs[c] && j <= c)
    else c == 0
  }

  /** Where the first edge at or left of `x0` sits, if any. */
  function FirstEdgeAtOrLeft(edges: seq<Edge>, x0: real): (r: Option<nat>)
    ensures r.Some? ==> r.value < |edges| && edges[r.value].left <= x0
    ensures r.Some? ==> forall k :: 0 <= k < r.value ==> edges[k].left > x0
    ensures r.None? ==> forall k :: 0 <= k < |edges| ==> edges[k].left > x0
  {
    if edges == [] then None
    else if edges[0].left <= x0 then Some(0)
    else match FirstEdgeAtOrLeft(edges[1..], x0)
      case None => None
      case Some(i) => Some(i + 1)
  }

  lemma {:induction false} ColumnIndexOfFirst(edges: seq<Edge>, x0: real)
    ensures ColumnIndex(edges, x0) == match FirstEdgeAtOrLeft(edges, x0)
      case Some(k) => edges[k].index
      case None => 0
  {
    if edges != [] && x0 < edges[0].left {
      ColumnIndexOfFirst(edges[1..], x0);
    }
  }

  /** The sorted edges are the edges of the boundaries, each once. */
  lemma SortedEdgesHold(bs: seq<real>, j: nat)
    requires j < |bs|
    ensures Edge(bs[j], j) in SortedEdges(bs)
  {
    assert EdgesOf(bs)[j] in multiset(SortedEdges(bs));
  }

  lemma SortedEdgeIsEdge(bs: seq<real>, k: nat)
    requires k < |SortedEdges(bs)|
    ensures SortedEdges(bs)[k].index < |bs|
    ensures SortedEdges(bs)[k] == Edge(bs[SortedEdges(bs)[k].index], SortedEdges(bs)[k].index)
  {
    var e := SortedEdges(bs)[k];
    assert e in multiset(EdgesOf(bs));
    assert e in EdgesOf(bs);
  }

  /** `group_by_columns` puts a character in the column the rule names. */
  lemma ColumnIsColumnOf(bs: seq<real>, x0: real)
    ensures IsColumnOf(bs, x0, Column(bs, x0))
  {
    var edges := SortedEdges(bs);
    var f := FirstEdgeAtOrLeft(edges, x0);
    ColumnIndexOfFirst(edges, x0);
    EdgeAtLeastIsTotalPreorder();
    SortDescendingSorted(EdgesOf(bs), EdgeAtLeast);
    match f
    case None =>
      forall j | 0 <= j < |bs|
        ensures bs[j] > x0
      {
        SortedEdgesHold(bs, j);
      }
    case Some(k) =>
      SortedEdgeIsEdge(bs, k);
      var c := edges[k].index;
      forall j | 0 <= j < |bs| && bs[j] <= x0
        ensures bs[j] < bs[c] || (bs[j] == bs[c] && j <= c)
      {
        SortedEdgesHold(bs, j);
        var m :| 0 <= m < |edges| && edges[m] == Edge(bs[j], j);
        if m != k {
          assert k < m;
          assert EdgeAtLeast(edges[k], edges[m]);
        }
      }
  }

  /** The rule names one column only. */
  lemma ColumnOfUnique(bs: seq<real>, x0: real, c: nat, d: nat)
    requires IsColumnOf(bs, x0, c) && IsColumnOf(bs, x0, d)
    ensures c == d
  {
    if exists j :: 0 <= j < |bs| && bs[j] <= x0 {
      assert bs[c] <= x0 && bs[d] <= x0;
    }
  }

  /** With increasing boundaries, a character exactly on a boundary goes to
      that boundary's column, and one left of all boundaries to column 0. */
  lemma OnBoundary(bs: seq<real>, c: nat, x0: real)
    requires forall i, j :: 0 <= i < j < |bs| ==> bs[i] < bs[j]
    ensures c < |bs| && bs[c] == x0 ==> Column(bs, x0) == c
    ensures (forall j :: 0 <= j < |bs| ==> x0 < bs[j]) ==> Column(bs, x0) == 0
  {
    ColumnIsColumnOf(bs, x0);
    if c < |bs| && bs[c] == x0 {
      var d := Column(bs, x0);
      assert bs[c] <= x0;
      assert d < |bs| && bs[d] <= x0;
    }
  }

  /** The method form of `get_column_index`: walks the sorted edges. */
  method GetColumnIndex(edges: seq<Edge>, x0: real) returns (column: nat)
    ensures column == ColumnIndex(edges, x0)
  {
    for k := 0 to |edges|
      invariant ColumnIndex(edges, x0) == ColumnIndex(edges[k..], x0)
    {
      if x0 >= edges[k].left {
        return edges[k].index;
      }
      assert edges[k..][1..] == edges[k + 1..];
    }
    return 0;
  }

  // ---------------------------------------------------------------------
  // Cells.

  /** The text of column `c`: the texts of the characters that belong to
      it, concatenated in their order on the line. */
  function CellText(chars: seq<Token>, bs: seq<real>, c: nat): string {
    if chars == [] then ""
    else
      var ch := chars[|chars| - 1];
      CellText(chars[..|chars| - 1], bs, c) + (if Column(bs, ch.x0) == c then ch.text else "")
  }

  /** `group_by_columns(chars, boundaries)`: one cell per boundary, filled
      character by character. Python indexes `row[0]` for a character left
      of every boundary, so at least one boundary is needed. */
  method GroupByColumns(chars: seq<Token>, bs: seq<real>) returns (row: seq<string>)
    requires |bs| > 0
    ensures |row| == |bs|
    ensures forall c :: 0 <= c < |bs| ==> row[c] == CellText(chars, bs, c)
  {
    var edges := SortDescending(EdgesOf(bs), EdgeAtLeast);
    var cells := new string[|bs|](_ => "");
    for i := 0 to |chars|
      invariant forall c :: 0 <= c < cells.Length ==> cells[c] == CellText(chars[..i], bs, c)
    {
      var ch := chars[i];
      var column := GetColumnIndex(edges, ch.x0);
      ColumnIsColumnOf(bs, ch.x0);
      assert chars[..i + 1][..i] == chars[..i];
      cells[column] := cells[column] + ch.text;
    }
    assert chars[..|chars|] == chars;
    row := cells[..];
  }

  function SumLengths(cells: seq<string>): nat {
    if cells == [] then 0 else SumLengths(cells[..|cells| - 1]) + |cells[|cells| - 1]|
  }

  function Cells(chars: seq<Token>, bs: seq<real>): (r: seq<string>)
    ensures |r| == |bs| && forall c :: 0 <= c < |bs| ==> r[c] == CellText(chars, bs, c)
  {
    seq(|bs|, c requires 0 <= c < |bs| => CellText(chars, bs, c))
  }

  lemma {:induction false} SumLengthsUpdate(s: seq<string>, t: seq<string>, c: nat, extra: string)
    requires |s| == |t| && c < |s|
    requires t[c] == s[c] + extra
    requires forall k :: 0 <= k < |s| && k != c ==> t[k] == s[k]
    ensures SumLengths(t) == SumLengths(s) + |extra|
  {
    var n := |s|;
    if c == n - 1 {
      assert s[..n - 1] == t[..n - 1];
    } else {
      SumLengthsUpdate(s[..n - 1], t[..n - 1], c, extra);
    }
  }

  lemma {:induction false} SumLengthsEmpty(n: nat)
    ensures SumLengths(seq(n, c => "")) == 0
  {
    if n > 0 {
      assert seq(n, c => "")[..n - 1] == seq(n - 1, c => "");
      SumLengthsEmpty(n - 1);
    }
  }

  /** No character is lost: the cells hold exactly as much text as the line. */
  lemma {:induction false} NothingLost(chars: seq<Token>, bs: seq<real>)
    requires |bs| > 0
    ensures SumLengths(Cells(chars, bs)) == |Concat(Texts(chars))|
  {
    if chars == [] {
      assert Cells(chars, bs) == seq(|bs|, c => "");
      SumLengthsEmpty(|bs|);
    } else {
      NothingLost(chars[..|chars| - 1], bs);
      CellsSnoc(chars, bs);
      TextsSnoc(chars);
    }
  }

  /** The last character adds its text to one cell. */
  lemma CellsSnoc(chars: seq<Token>, bs: seq<real>)
    requires chars != [] && |bs| > 0
    ensures SumLengths(Cells(chars, bs)) ==
      SumLengths(Cells(chars[..|chars| - 1], bs)) + |chars[|chars| - 1].text|
  {
    var front, ch := chars[..|chars| - 1], chars[|chars| - 1];
    var c := Column(bs, ch.x0);
    ColumnIsColumnOf(bs, ch.x0);
    assert c < |bs|;
    SumLengthsUpdate(Cells(front, bs), Cells(chars, bs), c, ch.text);
  }

  /** The last character adds its text to the whole line. */
  lemma TextsSnoc(chars: seq<Token>)
    requires chars != []
    ensures |Concat(Texts(chars))| == |Concat(Texts(chars[..|chars| - 1]))| + |chars[|chars| - 1].text|
  {
    var front, ch := chars[..|chars| - 1], chars[|chars| - 1];
    assert Texts(chars) == Texts(front) + [ch.text];
    ConcatSnoc(Texts(front), ch.text);
  }

  lemma {:induction false} ConcatSnoc(parts: seq<string>, t: string)
    ensures Concat(parts + [t]) == Concat(parts) + t
  {
    if parts != [] {
      assert (parts + [t])[1..] == parts[1..] + [t];
      ConcatSnoc(parts[1..], t);
    }
  }

  // ---------------------------------------------------------------------
  // A page.

  /** The row of one line: a bold line is one free-text cell, any other
      line one cell per column. */
  function RowOf(chars: seq<Token>, bs: seq<real>): seq<string> {
    if IsSentenceLine(chars) then [Concat(Texts(chars))] else Cells(chars, bs)
  }

  /** The `while char_lines:` loop: each line in turn becomes a row. */
  method LinesToRows(charLines: seq<seq<Token>>, bs: seq<real>) returns (rows: seq<seq<string>>)
    requires |bs| > 0
    ensures |rows| == |charLines|
    ensures forall i :: 0 <= i < |charLines| ==> rows[i] == RowOf(charLines[i], bs)
  {
    rows := [];
    for i := 0 to |charLines|
      invariant |rows| == i
      invariant forall k :: 0 <= k < i ==> rows[k] == RowOf(charLines[k], bs)
    {
      var charLine := charLines[i];
      var row;
      if IsSentenceLine(charLine) {
        row := [Concat(Texts(charLine))];
      } else {
        row := GroupByColumns(charLine, bs);
        assert row == Cells(charLine, bs);
      }
      assert row == RowOf(charLine, bs);
      rows := rows + [row];
    }
  }

  /** The line tolerance `group_by_lines` is called with by default. */
  const LineTolerance: real := 3.0

  /** One page of the table: its column boundaries from the table header,
      then its body characters as lines, then the rows. Fails with a
      ParseError on unexpected titles, a character that is not horizontal,
      or a page without body text. */
  method ReadPage(headerWords: seq<Token>, bodyChars: seq<Token>) returns (r: Result<seq<seq<string>>>)
    ensures r.Err? ==> r.error == ParseError
    ensures r.Ok? <==> Titles(Headings(headerWords)) == ExpectedTitles && AllHorizontal(bodyChars) && bodyChars != []
    ensures r.Ok? ==>
      var bs, lines := Expand(Headings(headerWords)), LineGroups(bodyChars, LineTolerance);
      |r.value| == |lines| && forall i :: 0 <= i < |lines| ==> r.value[i] == RowOf(lines[i], bs)
  {
    var boundaries, moved := GetBoundaries(headerWords);
    if boundaries.Err? {
      return Err(boundaries.error);
    }
    var bs := boundaries.value;
    NineBoundaries(Headings(headerWords));
    assert |bs| > 4;
    var charLines := GroupByLines(bodyChars, LineTolerance);
    if charLines.Err? {
      return Err(charLines.error);
    }
    if charLines.value == [] {
      LineGroupsIsGrouping(bodyChars, LineTolerance);
      return Err(ParseError);
    }
    assert bodyChars != [];
    var rows := LinesToRows(charLines.value, bs);
    return Ok(rows);
  }

  /** A bold line gives a one-cell row; any other line a row of one cell
      per boundary. */
  lemma RowShape(chars: seq<Token>, bs: seq<real>)
    requires |bs| > 1
    ensures |RowOf(chars, bs)| == 1 <==> IsSentenceLine(chars)
    ensures !IsSentenceLine(chars) ==> |RowOf(chars, bs)| == |bs|
  {
  }
}
