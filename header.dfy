/** `header_words_to_dict` (icscards-pdf-to-csv.py:260-295): the statement's
    information box is a stack of label lines, each followed by a line of
    values. Each value word belongs to the label whose left edge (less a
    2-point tolerance) is the nearest one at or left of the word. */
module Header {
  import opened Base
  import opened Text
  import opened Sorting
  import opened Lines

  /** `line_tolerance=3` */
  const HeaderLineTolerance: real := 3.0
  /** `x_tolerance = 2` */
  const KeyTolerance: real := 2.0

  /** `(word['x0'] - x_tolerance, word['text'].lower())` */
  datatype KeyPosition = KeyPosition(threshold: real, name: string)

  function KeyPositionOf(w: Token): KeyPosition {
    KeyPosition(w.x0 - KeyTolerance, Lower(w.text))
  }

  /** Python's tuple comparison `a >= b`: by threshold, then by label. */
  predicate AtLeast(a: KeyPosition, b: KeyPosition) {
    a.threshold > b.threshold || (a.threshold == b.threshold && !LexLess(a.name, b.name))
  }

  lemma AtLeastIsTotalPreorder()
    ensures IsTotalPreorder(AtLeast)
  {
    forall a: KeyPosition, b: KeyPosition
      ensures AtLeast(a, b) || AtLeast(b, a)
    {
      LexLessTotal(a.name, b.name);
    }
    forall a: KeyPosition, b: KeyPosition, c: KeyPosition | AtLeast(a, b) && AtLeast(b, c)
      ensures AtLeast(a, c)
    {
      if a.threshold == b.threshold == c.threshold && LexLess(a.name, c.name) {
        LexLessTotal(b.name, c.name);
        if LexLess(c.name, b.name) {
          LexLessTransitive(a.name, c.name, b.name);
        }
      }
    }
  }

  function LinePositions(headerLine: seq<Token>): (r: seq<KeyPosition>)
    ensures |r| == |headerLine|
    ensures forall k :: 0 <= k < |r| ==> r[k] == KeyPositionOf(headerLine[k])
  {
    if headerLine == [] then [] else [KeyPositionOf(headerLine[0])] + LinePositions(headerLine[1..])
  }

  /** `key_positions` after `key_positions.sort(reverse=True)`. */
  function KeyPositions(headerLine: seq<Token>): (r: seq<KeyPosition>)
    ensures multiset(r) == multiset(LinePositions(headerLine))
    ensures |r| == |headerLine|
  {
    SortDescending(LinePositions(headerLine), AtLeast)
  }

  function PositionLabels(ps: seq<KeyPosition>): set<string> {
    set p | p in ps :: p.name
  }

  /** The lower-cased words of a label line. */
  function LineLabels(headerLine: seq<Token>): set<string> {
    set w | w in headerLine :: Lower(w.text)
  }

  lemma KeyPositionLabels(headerLine: seq<Token>)
    ensures PositionLabels(KeyPositions(headerLine)) == LineLabels(headerLine)
  {
    var ps, us := KeyPositions(headerLine), LinePositions(headerLine);
    forall l | l in PositionLabels(ps)
      ensures l in LineLabels(headerLine)
    {
      var p :| p in ps && p.name == l;
      assert p in multiset(us);
      var k :| 0 <= k < |us| && us[k] == p;
      assert headerLine[k] in headerLine;
    }
    forall l | l in LineLabels(headerLine)
      ensures l in PositionLabels(ps)
    {
      var w :| w in headerLine && Lower(w.text) == l;
      var k :| 0 <= k < |headerLine| && headerLine[k] == w;
      assert us[k] in multiset(ps);
    }
  }

  /** Index of the first position whose threshold is at or left of `x0`. */
  function FirstAtOrLeft(ps: seq<KeyPosition>, x0: real): (r: Option<nat>)
    ensures r.Some? ==> r.value < |ps| && ps[r.value].threshold <= x0
    ensures r.Some? ==> forall k :: 0 <= k < r.value ==> ps[k].threshold > x0
    ensures r.None? ==> forall k :: 0 <= k < |ps| ==> ps[k].threshold > x0
  {
    if ps == [] then None
    else if ps[0].threshold <= x0 then Some(0)
    else match FirstAtOrLeft(ps[1..], x0)
      case None => None
      case Some(i) => Some(i + 1)
  }

  /** The label a value word at `x0` is filed under: the first position at or
      left of it, unless there is none or its label is empty (`if not
      keyword`), in which case the last position. */
  function AssignedLabel(ps: seq<KeyPosition>, x0: real): string
    requires ps != []
  {
    var f := FirstAtOrLeft(ps, x0);
    if f.Some? && ps[f.value].name != "" then ps[f.value].name else ps[|ps| - 1].name
  }

  lemma AtLeastReflexive(a: KeyPosition)
    ensures AtLeast(a, a)
  {
    LexLessTotal(a.name, a.name);
  }

  /** The sorted positions are in descending order. */
  lemma KeyPositionsSorted(headerLine: seq<Token>)
    ensures SortedDescending(KeyPositions(headerLine), AtLeast)
  {
    AtLeastIsTotalPreorder();
    SortDescendingSorted(LinePositions(headerLine), AtLeast);
  }

  lemma KeyPositionsHold(headerLine: seq<Token>, w: Token)
    requires w in headerLine
    ensures KeyPositionOf(w) in KeyPositions(headerLine)
  {
    var j :| 0 <= j < |headerLine| && headerLine[j] == w;
    assert LinePositions(headerLine)[j] in multiset(KeyPositions(headerLine));
  }

  /** In the sorted positions, the first one at or left of `x0` is the
      greatest of those at or left of `x0`, and the last one is the least of
      all; the label chosen is one of the line's labels. */
  lemma NearestLeftKey(headerLine: seq<Token>, x0: real)
    requires headerLine != []
    ensures var ps := KeyPositions(headerLine);
      var f := FirstAtOrLeft(ps, x0);
      (f.Some? ==> forall w :: w in headerLine && w.x0 - KeyTolerance <= x0 ==> AtLeast(ps[f.value], KeyPositionOf(w))) &&
      (f.None? ==> forall w :: w in headerLine ==> w.x0 - KeyTolerance > x0) &&
      (forall w :: w in headerLine ==> AtLeast(KeyPositionOf(w), ps[|ps| - 1])) &&
      AssignedLabel(ps, x0) in LineLabels(headerLine)
  {
    var ps := KeyPositions(headerLine);
    var f := FirstAtOrLeft(ps, x0);
    KeyPositionsSorted(headerLine);
    forall w | w in headerLine
      ensures f.Some? && w.x0 - KeyTolerance <= x0 ==> AtLeast(ps[f.value], KeyPositionOf(w))
      ensures f.None? ==> w.x0 - KeyTolerance > x0
      ensures AtLeast(KeyPositionOf(w), ps[|ps| - 1])
    {
      KeyPositionsHold(headerLine, w);
      var k :| 0 <= k < |ps| && ps[k] == KeyPositionOf(w);
      AtLeastReflexive(ps[k]);
    }
    KeyPositionLabels(headerLine);
    LabelOfAssigned(ps, x0);
  }

  // ---------------------------------------------------------------------
  // The dictionary, defined pair of lines by pair of lines.

  predicate NoEmptyLine(lines: seq<seq<Token>>) {
    forall k :: 0 <= k < |lines| ==> lines[k] != []
  }

  /** The texts of the value words filed under `key`, in order. */
  function PairValues(ps: seq<KeyPosition>, valuesLine: seq<Token>, key: string): seq<string>
    requires ps != []
  {
    if valuesLine == [] then []
    else
      var w := valuesLine[|valuesLine| - 1];
      PairValues(ps, valuesLine[..|valuesLine| - 1], key) + (if AssignedLabel(ps, w.x0) == key then [w.text] else [])
  }

  /** The labels of every label line. */
  function LabelsOf(lines: seq<seq<Token>>): set<string>
    requires |lines| % 2 == 0
  {
    if lines == [] then {} else LabelsOf(lines[..|lines| - 2]) + LineLabels(lines[|lines| - 2])
  }

  /** The values filed under `key`, pair after pair. */
  function ValuesFor(lines: seq<seq<Token>>, key: string): seq<string>
    requires |lines| % 2 == 0 && NoEmptyLine(lines)
  {
    if lines == [] then []
    else ValuesFor(lines[..|lines| - 2], key) + PairValues(KeyPositions(lines[|lines| - 2]), lines[|lines| - 1], key)
  }

  /** The dictionary `header_words_to_dict` builds from its lines. */
  function HeaderDict(lines: seq<seq<Token>>): map<string, seq<string>>
    requires |lines| % 2 == 0 && NoEmptyLine(lines)
  {
    map key | key in LabelsOf(lines) :: ValuesFor(lines, key)
  }

  // ---------------------------------------------------------------------
  // The loops of header_words_to_dict.

  /** The inner search: the first position with `x0 >= threshold`, or the
      last position when there is none or its label is empty. */
  method FindKey(ps: seq<KeyPosition>, x0: real) returns (key: string)
    requires ps != []
    ensures key == AssignedLabel(ps, x0)
  {
    var keyword: Option<string> := None;
    var j := 0;
    while j < |ps|
      invariant 0 <= j <= |ps|
      invariant keyword.None?
      invariant forall k :: 0 <= k < j ==> ps[k].threshold > x0
    {
      if x0 >= ps[j].threshold {
        keyword := Some(ps[j].name);
        FirstIsFirst(ps, x0, j);
        break;
      }
      j := j + 1;
    }
    if keyword.None? || keyword.value == "" {
      key := ps[|ps| - 1].name;
    } else {
      key := keyword.value;
    }
  }

  lemma FirstIsFirst(ps: seq<KeyPosition>, x0: real, j: nat)
    requires j < |ps| && ps[j].threshold <= x0
    requires forall k :: 0 <= k < j ==> ps[k].threshold > x0
    ensures FirstAtOrLeft(ps, x0) == Some(j)
  {
    var f := FirstAtOrLeft(ps, x0);
    assert f.Some?;
  }

  /** Every name gets an empty list unless it is already there; a name
      seen before keeps its values. */
  method RegisterKeys(values: map<string, seq<string>>, ps: seq<KeyPosition>) returns (r: map<string, seq<string>>)
    ensures r.Keys == values.Keys + PositionLabels(ps)
    ensures forall k :: k in r ==> r[k] == if k in values then values[k] else []
  {
    r := values;
    for j := 0 to |ps|
      invariant r.Keys == values.Keys + PositionLabels(ps[..j])
      invariant forall k :: k in r ==> r[k] == if k in values then values[k] else []
    {
      assert ps[..j + 1] == ps[..j] + [ps[j]];
      if ps[j].name !in r {
        r := r[ps[j].name := []];
      }
    }
    assert ps[..|ps|] == ps;
  }

  /** Each value word is appended to the list of the name it is filed under. */
  method AppendValues(values: map<string, seq<string>>, ps: seq<KeyPosition>, valuesLine: seq<Token>)
    returns (r: map<string, seq<string>>)
    requires ps != []
    requires PositionLabels(ps) <= values.Keys
    ensures r.Keys == values.Keys
    ensures forall k :: k in r ==> r[k] == values[k] + PairValues(ps, valuesLine, k)
  {
    r := values;
    for j := 0 to |valuesLine|
      invariant r.Keys == values.Keys
      invariant forall k :: k in r ==> r[k] == values[k] + PairValues(ps, valuesLine[..j], k)
    {
      var word := valuesLine[j];
      var key := FindKey(ps, word.x0);
      LabelOfAssigned(ps, word.x0);
      AppendStep(values, r, ps, valuesLine, j, key);
      r := r[key := r[key] + [word.text]];
    }
    assert valuesLine[..|valuesLine|] == valuesLine;
  }

  /** Appending the j-th value word to its label's list keeps the loop's invariant. */
  lemma AppendStep(values: map<string, seq<string>>, r: map<string, seq<string>>, ps: seq<KeyPosition>,
                   valuesLine: seq<Token>, j: nat, key: string)
    requires ps != [] && j < |valuesLine| && key == AssignedLabel(ps, valuesLine[j].x0)
    requires r.Keys == values.Keys && key in r
    requires forall k :: k in r ==> r[k] == values[k] + PairValues(ps, valuesLine[..j], k)
    ensures var r' := r[key := r[key] + [valuesLine[j].text]];
      r'.Keys == values.Keys &&
      forall k :: k in r' ==> r'[k] == values[k] + PairValues(ps, valuesLine[..j + 1], k)
  {
    var r' := r[key := r[key] + [valuesLine[j].text]];
    forall k | k in r'
      ensures r'[k] == values[k] + PairValues(ps, valuesLine[..j + 1], k)
    {
      PairValuesStep(ps, valuesLine, j, k);
      if k == key {
        assert r'[k] == r[k] + [valuesLine[j].text];
      } else {
        assert r'[k] == r[k];
      }
    }
  }

  /** One more value word files its text under its own label only. */
  lemma PairValuesStep(ps: seq<KeyPosition>, valuesLine: seq<Token>, j: nat, key: string)
    requires ps != [] && j < |valuesLine|
    ensures PairValues(ps, valuesLine[..j + 1], key) ==
      PairValues(ps, valuesLine[..j], key) + (if AssignedLabel(ps, valuesLine[j].x0) == key then [valuesLine[j].text] else [])
  {
    var line := valuesLine[..j + 1];
    assert line[..|line| - 1] == valuesLine[..j];
    assert line[|line| - 1] == valuesLine[j];
  }

  lemma LabelOfAssigned(ps: seq<KeyPosition>, x0: real)
    requires ps != []
    ensures AssignedLabel(ps, x0) in PositionLabels(ps)
  {
    var f := FirstAtOrLeft(ps, x0);
    if f.Some? {
      assert ps[f.value] in ps;
    }
    assert ps[|ps| - 1] in ps;
  }

  lemma PrefixNoEmptyLine(lines: seq<seq<Token>>, i: nat)
    requires NoEmptyLine(lines) && i <= |lines|
    ensures NoEmptyLine(lines[..i])
  {
  }

  /** The definitions over `lines[..i + 2]` in terms of those over `lines[..i]`. */
  lemma PairStep(lines: seq<seq<Token>>, i: nat, key: string)
    requires |lines| % 2 == 0 && NoEmptyLine(lines) && i % 2 == 0 && i + 2 <= |lines|
    ensures NoEmptyLine(lines[..i]) && NoEmptyLine(lines[..i + 2])
    ensures |lines[..i]| % 2 == 0 && |lines[..i + 2]| % 2 == 0
    ensures LabelsOf(lines[..i + 2]) == LabelsOf(lines[..i]) + LineLabels(lines[i])
    ensures ValuesFor(lines[..i + 2], key) ==
      ValuesFor(lines[..i], key) + PairValues(KeyPositions(lines[i]), lines[i + 1], key)
  {
    PrefixNoEmptyLine(lines, i);
    PrefixNoEmptyLine(lines, i + 2);
    var next := lines[..i + 2];
    assert next[..|next| - 2] == lines[..i];
    assert next[|next| - 2] == lines[i] && next[|next| - 1] == lines[i + 1];
  }

  /** One more pair of lines adds its labels and files its values. */
  lemma HeaderDictStep(lines: seq<seq<Token>>, i: nat, values: map<string, seq<string>>,
                       registered: map<string, seq<string>>, r: map<string, seq<string>>)
    requires |lines| % 2 == 0 && NoEmptyLine(lines) && i % 2 == 0 && i + 2 <= |lines|
    requires NoEmptyLine(lines[..i]) && values.Keys == LabelsOf(lines[..i])
    requires forall k :: k in values ==> values[k] == ValuesFor(lines[..i], k)
    requires registered.Keys == values.Keys + PositionLabels(KeyPositions(lines[i]))
    requires forall k :: k in registered ==> registered[k] == if k in values then values[k] else []
    requires r.Keys == registered.Keys
    requires forall k :: k in r ==> r[k] == registered[k] + PairValues(KeyPositions(lines[i]), lines[i + 1], k)
    ensures NoEmptyLine(lines[..i + 2]) && r.Keys == LabelsOf(lines[..i + 2])
    ensures forall k :: k in r ==> r[k] == ValuesFor(lines[..i + 2], k)
  {
    PairStep(lines, i, "");
    KeyPositionLabels(lines[i]);
    forall k | k in r
      ensures r[k] == ValuesFor(lines[..i + 2], k)
    {
      PairStep(lines, i, k);
      if k !in values {
        ValuesForAbsent(lines[..i], k);
      }
    }
  }

  /** A map with the labels as keys and their values is the dictionary. */
  lemma IsHeaderDict(lines: seq<seq<Token>>, values: map<string, seq<string>>)
    requires |lines| % 2 == 0 && NoEmptyLine(lines)
    requires values.Keys == LabelsOf(lines)
    requires forall k :: k in values ==> values[k] == ValuesFor(lines, k)
    ensures values == HeaderDict(lines)
  {
  }

  /** A key that labels no line has no values. */
  lemma {:induction false} ValuesForAbsent(lines: seq<seq<Token>>, key: string)
    requires |lines| % 2 == 0 && NoEmptyLine(lines)
    requires key !in LabelsOf(lines)
    ensures ValuesFor(lines, key) == []
  {
    if lines != [] {
      var front := lines[..|lines| - 2];
      ValuesForAbsent(front, key);
      var h := lines[|lines| - 2];
      KeyPositionLabels(h);
      PairValuesAbsent(KeyPositions(h), lines[|lines| - 1], key);
    }
  }

  lemma {:induction false} PairValuesAbsent(ps: seq<KeyPosition>, valuesLine: seq<Token>, key: string)
    requires ps != [] && key !in PositionLabels(ps)
    ensures PairValues(ps, valuesLine, key) == []
  {
    if valuesLine != [] {
      PairValuesAbsent(ps, valuesLine[..|valuesLine| - 1], key);
      LabelOfAssigned(ps, valuesLine[|valuesLine| - 1].x0);
    }
  }

  /** One turn of the `while lines:` loop: register the labels of line `i`,
      then file the words of line `i + 1` under them. */
  method AddPair(lines: seq<seq<Token>>, i: nat, values: map<string, seq<string>>) returns (r: map<string, seq<string>>)
    requires |lines| % 2 == 0 && NoEmptyLine(lines) && i % 2 == 0 && i + 2 <= |lines|
    requires NoEmptyLine(lines[..i]) && values.Keys == LabelsOf(lines[..i])
    requires forall k :: k in values ==> values[k] == ValuesFor(lines[..i], k)
    ensures |lines[..i + 2]| % 2 == 0 && NoEmptyLine(lines[..i + 2])
    ensures r.Keys == LabelsOf(lines[..i + 2])
    ensures forall k :: k in r ==> r[k] == ValuesFor(lines[..i + 2], k)
  {
    PairStep(lines, i, "");
    var positions := KeyPositions(lines[i]);
    var registered := RegisterKeys(values, positions);
    var filled := AppendValues(registered, positions, lines[i + 1]);
    HeaderDictStep(lines, i, values, registered, filled);
    r := filled;
  }

  /** Between two even numbers there is room for a pair. */
  lemma EvenGap(i: int, n: int)
    requires i % 2 == 0 && n % 2 == 0 && i < n
    ensures i + 2 <= n
  {
  }

  /** The `while lines:` loop: label line, then values line, until none are left. */
  method FillDict(lines: seq<seq<Token>>) returns (values: map<string, seq<string>>)
    requires |lines| % 2 == 0 && NoEmptyLine(lines)
    ensures values == HeaderDict(lines)
  {
    values := map[];
    var i := 0;
    while i < |lines|
      invariant 0 <= i <= |lines| && i % 2 == 0
      invariant NoEmptyLine(lines[..i]) && values.Keys == LabelsOf(lines[..i])
      invariant forall k :: k in values ==> values[k] == ValuesFor(lines[..i], k)
    {
      EvenGap(i, |lines|);
      values := AddPair(lines, i, values);
      i := i + 2;
    }
    assert lines[..i] == lines;
    IsHeaderDict(lines, values);
  }

  /** What `header_words_to_dict(words)` returns: no words give an empty
      dictionary; a word that is not upright and left-to-right, or an odd
      number of lines, is a ParseError; otherwise the dictionary of the
      line pairs. */
  function HeaderDictOf(words: seq<Token>): Result<map<string, seq<string>>> {
    if words == [] then Ok(map[])
    else if !AllHorizontal(words) then Err(ParseError)
    else
      var lines := LineGroups(words, HeaderLineTolerance);
      LineGroupsIsGrouping(words, HeaderLineTolerance);
      if |lines| % 2 == 1 then Err(ParseError) else Ok(HeaderDict(lines))
  }

  /** `header_words_to_dict(words)`, computed by grouping the words into
      lines and filling the dictionary pair by pair. */
  method HeaderWordsToDict(words: seq<Token>) returns (r: Result<map<string, seq<string>>>)
    ensures r == HeaderDictOf(words)
    ensures words == [] ==> r == Ok(map[])
    ensures words != [] && !AllHorizontal(words) ==> r == Err(ParseError)
    ensures words != [] && AllHorizontal(words) ==>
      var lines := LineGroups(words, HeaderLineTolerance);
      NoEmptyLine(lines) &&
      r == if |lines| % 2 == 1 then Err(ParseError) else Ok(HeaderDict(lines))
  {
    if words == [] {
      return Ok(map[]);
    }
    var grouped := GroupByLines(words, HeaderLineTolerance);
    if grouped.Err? {
      return Err(ParseError);
    }
    var lines := grouped.value;
    LineGroupsIsGrouping(words, HeaderLineTolerance);
    if |lines| % 2 == 1 {
      return Err(ParseError);
    }
    var values := FillDict(lines);
    return Ok(values);
  }
}
