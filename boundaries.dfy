/** `get_boundaries_from_first_line` (icscards-pdf-to-csv.py:298-334): the
    header of the transaction table gives the left edges of its nine
    columns. Header words at the same `x0` (a title wrapped over two lines)
    are joined; the five titles must be exactly the expected ones; each
    title then yields one or more boundaries at fixed offsets from its `x0`. */
module Boundaries {
  import opened Base
  import opened Text
  import opened Lines

  /** One entry of the `headers` dictionary: a left edge and its title. */
  datatype Heading = Heading(x0: real, title: string)

  // ---------------------------------------------------------------------
  // The headings, defined from the words.

  /** The distinct left edges of `words`, in order of first appearance. */
  function Positions(words: seq<Token>): (r: seq<real>)
    ensures forall x :: x in r <==> exists k :: 0 <= k < |words| && words[k].x0 == x
    ensures forall i, j :: 0 <= i < j < |r| ==> r[i] != r[j]
  {
    if words == [] then []
    else
      var front := Positions(words[..|words| - 1]);
      var x := words[|words| - 1].x0;
      assert forall k :: 0 <= k < |words| - 1 ==> words[..|words| - 1][k] == words[k];
      if x in front then front else front + [x]
  }

  /** The texts of the words whose left edge is `x`, in order. */
  function TextsAt(words: seq<Token>, x: real): seq<string> {
    if words == [] then []
    else
      var w := words[|words| - 1];
      TextsAt(words[..|words| - 1], x) + (if w.x0 == x then [w.text] else [])
  }

  /** The `headers` dictionary: every left edge, in order of first
      appearance, with the texts of its words joined by a space. */
  function Headings(words: seq<Token>): (r: seq<Heading>)
    ensures |r| == |Positions(words)|
    ensures forall i :: 0 <= i < |r| ==> r[i] == Heading(Positions(words)[i], Join(TextsAt(words, Positions(words)[i]), " "))
  {
    var ps := Positions(words);
    seq(|ps|, i requires 0 <= i < |ps| => Heading(ps[i], Join(TextsAt(words, ps[i]), " ")))
  }

  lemma {:induction false} TextsAtEmpty(words: seq<Token>, x: real)
    ensures TextsAt(words, x) == [] <==> x !in Positions(words)
  {
    if words != [] {
      var front := words[..|words| - 1];
      TextsAtEmpty(front, x);
      assert forall k :: 0 <= k < |words| - 1 ==> front[k] == words[k];
    }
  }

  lemma {:induction false} JoinSnoc(parts: seq<string>, sep: string, t: string)
    requires parts != []
    ensures Join(parts + [t], sep) == Join(parts, sep) + sep + t
  {
    if |parts| > 1 {
      assert (parts + [t])[1..] == parts[1..] + [t];
      JoinSnoc(parts[1..], sep, t);
    }
  }

  /** Where `x` sits among the headings, or `|hs|` when it does not. */
  function IndexOf(hs: seq<Heading>, x: real): (k: nat)
    ensures k <= |hs|
    ensures k < |hs| ==> hs[k].x0 == x
    ensures k == |hs| ==> forall j :: 0 <= j < |hs| ==> hs[j].x0 != x
  {
    if hs == [] then 0
    else if hs[|hs| - 1].x0 == x then |hs| - 1
    else
      var k := IndexOf(hs[..|hs| - 1], x);
      if k == |hs| - 1 then |hs| else k
  }

  /** One more word: a new left edge adds a heading, a known one extends its title. */
  lemma HeadingsStep(words: seq<Token>, i: nat)
    requires i < |words|
    ensures var hs, w := Headings(words[..i]), words[i];
      var k := IndexOf(hs, w.x0);
      Headings(words[..i + 1]) ==
        if k == |hs| then hs + [Heading(w.x0, w.text)]
        else hs[k := Heading(w.x0, hs[k].title + " " + w.text)]
  {
    var hs, w := Headings(words[..i]), words[i];
    if IndexOf(hs, w.x0) == |hs| {
      HeadingsNew(words, i);
    } else {
      HeadingsKnown(words, i);
    }
  }

  /** One more word adds its text at its own left edge and nowhere else. */
  lemma TextsAtSnoc(words: seq<Token>, i: nat, y: real)
    requires i < |words|
    ensures TextsAt(words[..i + 1], y) ==
      TextsAt(words[..i], y) + (if words[i].x0 == y then [words[i].text] else [])
  {
    var next := words[..i + 1];
    assert next[..|next| - 1] == words[..i] && next[|next| - 1] == words[i];
  }

  /** One more word adds its left edge when it is new. */
  lemma PositionsSnoc(words: seq<Token>, i: nat)
    requires i < |words|
    ensures var ps := Positions(words[..i]);
      Positions(words[..i + 1]) == if words[i].x0 in ps then ps else ps + [words[i].x0]
  {
    var next := words[..i + 1];
    assert next[..|next| - 1] == words[..i] && next[|next| - 1] == words[i];
  }

  /** The heading of another left edge keeps its title when one more word comes. */
  lemma HeadingElsewhere(words: seq<Token>, i: nat, j: nat)
    requires i < |words|
    requires j < |Positions(words[..i])| && j < |Positions(words[..i + 1])|
    requires Positions(words[..i + 1])[j] == Positions(words[..i])[j] != words[i].x0
    ensures Headings(words[..i + 1])[j] == Headings(words[..i])[j]
  {
    var x := Positions(words[..i])[j];
    TextsAtSnoc(words, i, x);
    assert TextsAt(words[..i + 1], x) == TextsAt(words[..i], x) + [];
    assert TextsAt(words[..i], x) + [] == TextsAt(words[..i], x);
    assert Headings(words[..i + 1])[j] == Heading(x, Join(TextsAt(words[..i + 1], x), " "));
    assert Headings(words[..i])[j] == Heading(x, Join(TextsAt(words[..i], x), " "));
  }

  /** The heading of the word's own left edge gains the word's text. */
  lemma HeadingHere(words: seq<Token>, i: nat, j: nat)
    requires i < |words|
    requires j < |Positions(words[..i + 1])|
    requires Positions(words[..i + 1])[j] == words[i].x0
    ensures var t := TextsAt(words[..i], words[i].x0);
      Headings(words[..i + 1])[j] ==
        Heading(words[i].x0, if t == [] then words[i].text else Join(t, " ") + " " + words[i].text)
  {
    var t := TextsAt(words[..i], words[i].x0);
    TextsAtSnoc(words, i, words[i].x0);
    if t != [] {
      JoinSnoc(t, " ", words[i].text);
    } else {
      assert t + [words[i].text] == [words[i].text];
    }
  }

  /** A word at a new left edge adds a heading at the end. */
  lemma HeadingsNew(words: seq<Token>, i: nat)
    requires i < |words|
    requires IndexOf(Headings(words[..i]), words[i].x0) == |Headings(words[..i])|
    ensures Headings(words[..i + 1]) == Headings(words[..i]) + [Heading(words[i].x0, words[i].text)]
  {
    var w := words[i];
    var hs, ps := Headings(words[..i]), Positions(words[..i]);
    var after, wanted := Headings(words[..i + 1]), hs + [Heading(w.x0, w.text)];
    assert w.x0 !in ps;
    TextsAtEmpty(words[..i], w.x0);
    PositionsSnoc(words, i);
    assert Positions(words[..i + 1]) == ps + [w.x0];
    assert |after| == |wanted|;
    forall j | 0 <= j < |after|
      ensures after[j] == wanted[j]
    {
      if j == |ps| {
        HeadingHere(words, i, j);
      } else {
        HeadingElsewhere(words, i, j);
      }
    }
  }

  /** A word at a known left edge extends that heading's title. */
  lemma HeadingsKnown(words: seq<Token>, i: nat)
    requires i < |words|
    requires IndexOf(Headings(words[..i]), words[i].x0) < |Headings(words[..i])|
    ensures var hs, w := Headings(words[..i]), words[i];
      var k := IndexOf(hs, w.x0);
      Headings(words[..i + 1]) == hs[k := Heading(w.x0, hs[k].title + " " + w.text)]
  {
    var w := words[i];
    var hs, ps := Headings(words[..i]), Positions(words[..i]);
    var k := IndexOf(hs, w.x0);
    var after, wanted := Headings(words[..i + 1]), hs[k := Heading(w.x0, hs[k].title + " " + w.text)];
    assert ps[k] == w.x0;
    var t := TextsAt(words[..i], w.x0);
    TextsAtEmpty(words[..i], w.x0);
    assert t != [];
    assert hs[k].title == Join(t, " ");
    PositionsSnoc(words, i);
    assert Positions(words[..i + 1]) == ps;
    assert |after| == |wanted|;
    forall j | 0 <= j < |ps|
      ensures after[j] == wanted[j]
    {
      if j == k {
        HeadingHere(words, i, k);
      } else {
        HeadingElsewhere(words, i, j);
      }
    }
  }

  /** The first loop: fills the `headers` dictionary word by word. */
  method MergeHeadings(words: seq<Token>) returns (hs: seq<Heading>)
    ensures hs == Headings(words)
  {
    hs := [];
    for i := 0 to |words|
      invariant hs == Headings(words[..i])
    {
      var w := words[i];
      HeadingsStep(words, i);
      var k := IndexOf(hs, w.x0);
      if k == |hs| {
        hs := hs + [Heading(w.x0, w.text)];
      } else {
        hs := hs[k := Heading(w.x0, hs[k].title + " " + w.text)];
      }
    }
    assert words[..|words|] == words;
  }

  // ---------------------------------------------------------------------
  // From titles to boundaries.

  const ExpectedTitles: seq<string> :=
    ["Datum transactie", "Datum boeking", "Omschrijving", "Bedrag in vreemde valuta", "Bedrag in euro's"]

  /** `relative_boundaries`: the offsets of each title's columns from its
      left edge. Only the five expected titles are ever looked up, since the
      titles are checked first; any other title has no columns. */
  function RelativeBoundaries(title: string): seq<real> {
    if title == "Datum transactie" then [-1.0]
    else if title == "Datum boeking" then [-2.0]
    else if title == "Omschrijving" then [-4.0, 122.0, 209.0]
    else if title == "Bedrag in vreemde valuta" then [-3.0, 43.0]
    else if title == "Bedrag in euro's" then [-3.0, 56.0]
    else []
  }

  /** `expected_boundaries`: the column edges of the usual layout. */
  const ReferenceBoundaries: seq<real> := [60.0, 103.0, 150.0, 276.0, 363.0, 399.0, 445.0, 476.0, 535.0]

  function Titles(hs: seq<Heading>): (r: seq<string>)
    ensures |r| == |hs| && forall i :: 0 <= i < |hs| ==> r[i] == hs[i].title
  {
    seq(|hs|, i requires 0 <= i < |hs| => hs[i].title)
  }

  function Shift(x0: real, offsets: seq<real>): (r: seq<real>)
    ensures |r| == |offsets| && forall j :: 0 <= j < |offsets| ==> r[j] == x0 + offsets[j]
  {
    seq(|offsets|, j requires 0 <= j < |offsets| => x0 + offsets[j])
  }

  /** Every heading's boundaries, heading after heading. */
  function Expand(hs: seq<Heading>): seq<real>
  {
    if hs == [] then [] else Expand(hs[..|hs| - 1]) + Shift(hs[|hs| - 1].x0, RelativeBoundaries(hs[|hs| - 1].title))
  }

  /** The boundaries of one more heading come after those of the headings before it. */
  lemma ExpandStep(hs: seq<Heading>, i: nat)
    requires i < |hs|
    ensures Expand(hs[..i + 1]) == Expand(hs[..i]) + Shift(hs[i].x0, RelativeBoundaries(hs[i].title))
  {
    assert hs[..i + 1][..i] == hs[..i];
  }

  lemma ShiftStep(x0: real, offsets: seq<real>, j: nat)
    requires j < |offsets|
    ensures Shift(x0, offsets[..j + 1]) == Shift(x0, offsets[..j]) + [x0 + offsets[j]]
  {
  }

  /** The second loop: appends `x0 + offset` for each heading and offset. */
  method ExpandBoundaries(hs: seq<Heading>) returns (bs: seq<real>)
    ensures bs == Expand(hs)
  {
    bs := [];
    for i := 0 to |hs|
      invariant bs == Expand(hs[..i])
    {
      ExpandStep(hs, i);
      var x0, offsets := hs[i].x0, RelativeBoundaries(hs[i].title);
      ghost var before := bs;
      for j := 0 to |offsets|
        invariant bs == before + Shift(x0, offsets[..j])
      {
        ShiftStep(x0, offsets, j);
        bs := bs + [x0 + offsets[j]];
      }
      assert offsets[..|offsets|] == offsets;
    }
    assert hs[..|hs|] == hs;
  }

  /** `get_boundaries_from_first_line(words)`: a ParseError unless the merged
      titles are exactly the expected five, in order; otherwise the
      boundaries, and whether they differ from the usual layout (which Python
      only logs). */
  method GetBoundaries(words: seq<Token>) returns (r: Result<seq<real>>, moved: bool)
    ensures r == if Titles(Headings(words)) == ExpectedTitles then Ok(Expand(Headings(words))) else Err(ParseError)
    ensures moved <==> r.Ok? && r.value != ReferenceBoundaries
  {
    var hs := MergeHeadings(words);
    if Titles(hs) != ExpectedTitles {
      return Err(ParseError), false;
    }
    var bs := ExpandBoundaries(hs);
    return Ok(bs), bs != ReferenceBoundaries;
  }

  lemma ExpectedHeadings(hs: seq<Heading>)
    requires Titles(hs) == ExpectedTitles
    ensures |hs| == 5
    ensures forall i :: 0 <= i < 5 ==> hs[i].title == ExpectedTitles[i]
  {
    forall i | 0 <= i < |hs|
      ensures hs[i].title == ExpectedTitles[i]
    {
      assert Titles(hs)[i] == hs[i].title;
    }
  }

  /** Five headings whose shifted offsets are `e0` to `e4` have those boundaries, in order. */
  lemma ExpandFive(hs: seq<Heading>, e0: seq<real>, e1: seq<real>, e2: seq<real>, e3: seq<real>, e4: seq<real>)
    requires |hs| == 5
    requires Shift(hs[0].x0, RelativeBoundaries(hs[0].title)) == e0
    requires Shift(hs[1].x0, RelativeBoundaries(hs[1].title)) == e1
    requires Shift(hs[2].x0, RelativeBoundaries(hs[2].title)) == e2
    requires Shift(hs[3].x0, RelativeBoundaries(hs[3].title)) == e3
    requires Shift(hs[4].x0, RelativeBoundaries(hs[4].title)) == e4
    ensures Expand(hs) == e0 + e1 + e2 + e3 + e4
  {
    assert hs[..0] == [];
    ExpandStep(hs, 0);
    assert Expand(hs[..1]) == e0;
    ExpandStep(hs, 1);
    assert Expand(hs[..2]) == e0 + e1;
    ExpandStep(hs, 2);
    assert Expand(hs[..3]) == e0 + e1 + e2;
    ExpandStep(hs, 3);
    assert Expand(hs[..4]) == e0 + e1 + e2 + e3;
    ExpandStep(hs, 4);
    assert hs[..5] == hs;
  }

  /** The offsets of the five expected titles. */
  lemma ExpectedOffsets()
    ensures RelativeBoundaries(ExpectedTitles[0]) == [-1.0]
    ensures RelativeBoundaries(ExpectedTitles[1]) == [-2.0]
    ensures RelativeBoundaries(ExpectedTitles[2]) == [-4.0, 122.0, 209.0]
    ensures RelativeBoundaries(ExpectedTitles[3]) == [-3.0, 43.0]
    ensures RelativeBoundaries(ExpectedTitles[4]) == [-3.0, 56.0]
  {
    assert ExpectedTitles[1] != "Datum transactie";
    assert ExpectedTitles[2] != "Datum transactie" && ExpectedTitles[2] != "Datum boeking";
    assert ExpectedTitles[3] != "Datum transactie" && ExpectedTitles[3] != "Datum boeking" &&
      ExpectedTitles[3] != "Omschrijving";
    assert ExpectedTitles[4] != "Datum transactie" && ExpectedTitles[4] != "Datum boeking" &&
      ExpectedTitles[4] != "Omschrijving" && ExpectedTitles[4] != "Bedrag in vreemde valuta";
  }

  /** With the expected titles, the nine boundaries are the titles' left
      edges plus their offsets, in order. */
  lemma NineBoundaries(hs: seq<Heading>)
    requires Titles(hs) == ExpectedTitles
    ensures Expand(hs) == [
      hs[0].x0 - 1.0, hs[1].x0 - 2.0,
      hs[2].x0 - 4.0, hs[2].x0 + 122.0, hs[2].x0 + 209.0,
      hs[3].x0 - 3.0, hs[3].x0 + 43.0,
      hs[4].x0 - 3.0, hs[4].x0 + 56.0]
  {
    ExpectedHeadings(hs);
    HeadingShifts(hs);
    NineShifts(hs);
  }

  /** Each of five headings with the expected titles, in order, shifts the offsets of its title. */
  lemma HeadingShifts(hs: seq<Heading>)
    requires |hs| == 5
    requires forall i :: 0 <= i < 5 ==> hs[i].title == ExpectedTitles[i]
    ensures Shift(hs[0].x0, RelativeBoundaries(hs[0].title)) == [hs[0].x0 - 1.0]
    ensures Shift(hs[1].x0, RelativeBoundaries(hs[1].title)) == [hs[1].x0 - 2.0]
    ensures Shift(hs[2].x0, RelativeBoundaries(hs[2].title)) == [hs[2].x0 - 4.0, hs[2].x0 + 122.0, hs[2].x0 + 209.0]
    ensures Shift(hs[3].x0, RelativeBoundaries(hs[3].title)) == [hs[3].x0 - 3.0, hs[3].x0 + 43.0]
    ensures Shift(hs[4].x0, RelativeBoundaries(hs[4].title)) == [hs[4].x0 - 3.0, hs[4].x0 + 56.0]
  {
    ExpectedOffsets();
    assert hs[0].title == ExpectedTitles[0] && hs[1].title == ExpectedTitles[1] && hs[2].title == ExpectedTitles[2];
    assert hs[3].title == ExpectedTitles[3] && hs[4].title == ExpectedTitles[4];
    ExpectedShifts(hs[0].x0, hs[1].x0, hs[2].x0, hs[3].x0, hs[4].x0);
  }

  /** The offsets of the expected titles applied to five left edges. */
  lemma ExpectedShifts(x0: real, x1: real, x2: real, x3: real, x4: real)
    ensures Shift(x0, [-1.0]) == [x0 - 1.0] && Shift(x1, [-2.0]) == [x1 - 2.0]
    ensures Shift(x2, [-4.0, 122.0, 209.0]) == [x2 - 4.0, x2 + 122.0, x2 + 209.0]
    ensures Shift(x3, [-3.0, 43.0]) == [x3 - 3.0, x3 + 43.0] && Shift(x4, [-3.0, 56.0]) == [x4 - 3.0, x4 + 56.0]
  {
  }

  /** Five headings with those shifted offsets have the nine boundaries. */
  lemma NineShifts(hs: seq<Heading>)
    requires |hs| == 5
    requires Shift(hs[0].x0, RelativeBoundaries(hs[0].title)) == [hs[0].x0 - 1.0]
    requires Shift(hs[1].x0, RelativeBoundaries(hs[1].title)) == [hs[1].x0 - 2.0]
    requires Shift(hs[2].x0, RelativeBoundaries(hs[2].title)) == [hs[2].x0 - 4.0, hs[2].x0 + 122.0, hs[2].x0 + 209.0]
    requires Shift(hs[3].x0, RelativeBoundaries(hs[3].title)) == [hs[3].x0 - 3.0, hs[3].x0 + 43.0]
    requires Shift(hs[4].x0, RelativeBoundaries(hs[4].title)) == [hs[4].x0 - 3.0, hs[4].x0 + 56.0]
    ensures Expand(hs) == [
      hs[0].x0 - 1.0, hs[1].x0 - 2.0,
      hs[2].x0 - 4.0, hs[2].x0 + 122.0, hs[2].x0 + 209.0,
      hs[3].x0 - 3.0, hs[3].x0 + 43.0,
      hs[4].x0 - 3.0, hs[4].x0 + 56.0]
  {
    var e0, e1 := [hs[0].x0 - 1.0], [hs[1].x0 - 2.0];
    var e2 := [hs[2].x0 - 4.0, hs[2].x0 + 122.0, hs[2].x0 + 209.0];
    var e3, e4 := [hs[3].x0 - 3.0, hs[3].x0 + 43.0], [hs[4].x0 - 3.0, hs[4].x0 + 56.0];
    ExpandFive(hs, e0, e1, e2, e3, e4);
    ConcatNine(e0, e1, e2, e3, e4);
  }

  /** Five short displays, one after the other. */
  lemma ConcatNine(e0: seq<real>, e1: seq<real>, e2: seq<real>, e3: seq<real>, e4: seq<real>)
    requires |e0| == 1 && |e1| == 1 && |e2| == 3 && |e3| == 2 && |e4| == 2
    ensures e0 + e1 + e2 + e3 + e4 == [e0[0], e1[0], e2[0], e2[1], e2[2], e3[0], e3[1], e4[0], e4[1]]
  {
  }

  /** Titles at their usual places give exactly the usual boundaries. */
  lemma ReferenceLayout(hs: seq<Heading>)
    requires Titles(hs) == ExpectedTitles
    requires hs[0].x0 == 61.0 && hs[1].x0 == 105.0 && hs[2].x0 == 154.0 && hs[3].x0 == 402.0 && hs[4].x0 == 479.0
    ensures Expand(hs) == ReferenceBoundaries
  {
    NineBoundaries(hs);
  }
}
