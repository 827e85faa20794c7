/** `group_by_lines` (icscards-pdf-to-csv.py:232-257): cuts a list of
    positioned words or characters, in reading order, into lines. A token
    starts a new line when its top lies at least `tolerance` below the top
    of the token that started the current line. */
module Lines {
  import opened Base

  /** A word or character as the PDF layer delivers it. `upright` and
      `direction` may be absent; Python then reads them as upright and "ltr". */
  datatype Token = Token(
    text: string,
    x0: real,
    top: real,
    fontname: string,
    upright: Option<bool>,
    direction: Option<string>)

  /** `word.get('upright', True) == True and word.get('direction', 'ltr') == 'ltr'` */
  predicate IsHorizontal(t: Token) {
    t.upright.GetOr(true) == true && t.direction.GetOr("ltr") == "ltr"
  }

  predicate AllHorizontal(words: seq<Token>) {
    forall k :: 0 <= k < |words| ==> IsHorizontal(words[k])
  }

  /** The lines one after the other. */
  function Flatten<T>(lines: seq<seq<T>>): seq<T> {
    if lines == [] then [] else lines[0] + Flatten(lines[1..])
  }

  lemma {:induction false} FlattenAppend<T>(a: seq<seq<T>>, b: seq<seq<T>>)
    ensures Flatten(a + b) == Flatten(a) + Flatten(b)
  {
    if a == [] {
      assert a + b == b;
    } else {
      assert (a + b)[1..] == a[1..] + b;
      FlattenAppend(a[1..], b);
    }
  }

  /** How many leading tokens lie above `bound`. */
  function CountAbove(words: seq<Token>, bound: real): (n: nat)
    ensures n <= |words|
    ensures forall k :: 0 <= k < n ==> words[k].top < bound
    ensures n == |words| || words[n].top >= bound
  {
    if words == [] || words[0].top >= bound then 0 else 1 + CountAbove(words[1..], bound)
  }

  /** The lines of `words`: each line takes its first token and every
      following token whose top lies less than `tolerance` below it. */
  function LineGroups(words: seq<Token>, tolerance: real): seq<seq<Token>>
    decreases |words|
  {
    if words == [] then []
    else
      var n := 1 + CountAbove(words[1..], words[0].top + tolerance);
      [words[..n]] + LineGroups(words[n..], tolerance)
  }

  /** `lines` is a grouping of `words` into lines: together they are the
      words in their order, no line is empty, every token of a line lies
      less than `tolerance` below the line's first token, and every line
      starts at least `tolerance` below the first token of the line before. */
  predicate IsLineGrouping(words: seq<Token>, tolerance: real, lines: seq<seq<Token>>) {
    Flatten(lines) == words &&
    (forall k :: 0 <= k < |lines| ==> lines[k] != []) &&
    (forall k, j :: 0 <= k < |lines| && 0 < j < |lines[k]| ==> lines[k][j].top < lines[k][0].top + tolerance) &&
    (forall k :: 0 < k < |lines| ==> lines[k][0].top >= lines[k - 1][0].top + tolerance)
  }

  lemma RestIsLineGrouping(words: seq<Token>, tolerance: real, lines: seq<seq<Token>>)
    requires lines != []
    requires IsLineGrouping(words, tolerance, lines)
    ensures words == lines[0] + words[|lines[0]|..]
    ensures IsLineGrouping(words[|lines[0]|..], tolerance, lines[1..])
  {
    assert words == lines[0] + Flatten(lines[1..]);
    assert words[|lines[0]|..] == Flatten(lines[1..]);
  }

  /** The grouping into lines is unique: it is `LineGroups`. */
  lemma {:induction false} LineGroupingUnique(words: seq<Token>, tolerance: real, lines: seq<seq<Token>>)
    requires IsLineGrouping(words, tolerance, lines)
    ensures lines == LineGroups(words, tolerance)
    decreases |words|
  {
    if lines == [] {
    } else {
      var n := |lines[0]|;
      RestIsLineGrouping(words, tolerance, lines);
      FirstLineLength(words, tolerance, lines);
      LineGroupingUnique(words[n..], tolerance, lines[1..]);
      assert lines == [lines[0]] + lines[1..];
    }
  }

  /** The first line of a grouping is as long as `LineGroups` makes it. */
  lemma FirstLineLength(words: seq<Token>, tolerance: real, lines: seq<seq<Token>>)
    requires lines != [] && IsLineGrouping(words, tolerance, lines)
    requires words == lines[0] + words[|lines[0]|..]
    requires IsLineGrouping(words[|lines[0]|..], tolerance, lines[1..])
    ensures words != [] && lines[0] == words[..|lines[0]|]
    ensures |lines[0]| == 1 + CountAbove(words[1..], words[0].top + tolerance)
  {
    var first := lines[0];
    var n := |first|;
    var bound := words[0].top + tolerance;
    var c := CountAbove(words[1..], bound);
    assert first[0] == words[0];
    forall k | 0 <= k < n - 1
      ensures words[1..][k].top < bound
    {
      assert words[1..][k] == first[k + 1];
    }
    if n < |words| {
      assert lines[1] != [];
      RestIsLineGrouping(words[n..], tolerance, lines[1..]);
      assert words[1..][n - 1] == lines[1][0];
    }
    assert first == words[..n];
  }

  /** `LineGroups` is a grouping into lines. */
  lemma {:induction false} LineGroupsIsGrouping(words: seq<Token>, tolerance: real)
    ensures IsLineGrouping(words, tolerance, LineGroups(words, tolerance))
    decreases |words|
  {
    if words != [] {
      var n := 1 + CountAbove(words[1..], words[0].top + tolerance);
      var first, rest := words[..n], LineGroups(words[n..], tolerance);
      LineGroupsIsGrouping(words[n..], tolerance);
      assert words == first + words[n..];
      forall j | 0 < j < |first|
        ensures first[j].top < first[0].top + tolerance
      {
        assert first[j] == words[1..][j - 1];
      }
      if rest != [] {
        assert rest[0][0] == words[n];
        assert words[n] == words[1..][n - 1];
      }
      ConsLine(first, words[n..], tolerance, rest);
    }
  }

  /** A first line in front of a grouping, starting far enough above it. */
  lemma ConsLine(first: seq<Token>, later: seq<Token>, tolerance: real, rest: seq<seq<Token>>)
    requires first != [] && IsLineGrouping(later, tolerance, rest)
    requires forall j :: 0 < j < |first| ==> first[j].top < first[0].top + tolerance
    requires rest != [] ==> rest[0][0].top >= first[0].top + tolerance
    ensures IsLineGrouping(first + later, tolerance, [first] + rest)
  {
    var lines := [first] + rest;
    assert lines[1..] == rest;
    forall k, j | 0 <= k < |lines| && 0 < j < |lines[k]|
      ensures lines[k][j].top < lines[k][0].top + tolerance
    {
      if k > 0 {
        assert lines[k] == rest[k - 1];
      }
    }
    forall k | 0 < k < |lines|
      ensures lines[k][0].top >= lines[k - 1][0].top + tolerance
    {
      assert lines[k] == rest[k - 1];
      if k > 1 {
        assert lines[k - 1] == rest[k - 2];
      }
    }
  }

  lemma ExtendLine(done: seq<Token>, tolerance: real, lines: seq<seq<Token>>, line: seq<Token>, w: Token)
    requires line != []
    requires IsLineGrouping(done, tolerance, lines + [line])
    requires w.top < line[0].top + tolerance
    ensures IsLineGrouping(done + [w], tolerance, lines + [line + [w]])
  {
    FlattenExtend(lines, line, w);
    var before: seq<seq<Token>>, after: seq<seq<Token>> := lines + [line], lines + [line + [w]];
    assert Flatten(after) == done + [w];
    forall k | 0 <= k < |after|
      ensures after[k] != [] && after[k][0] == before[k][0]
    {
      if k < |lines| {
        assert after[k] == before[k];
      }
    }
    forall k, j | 0 <= k < |after| && 0 < j < |after[k]|
      ensures after[k][j].top < after[k][0].top + tolerance
    {
      if k < |lines| {
        assert after[k] == before[k];
      } else if j < |line| {
        assert after[k][j] == before[k][j];
      }
    }
    forall k | 0 < k < |after|
      ensures after[k][0].top >= after[k - 1][0].top + tolerance
    {
    }
  }

  /** A token added to the last line comes last in the flattened lines. */
  lemma FlattenExtend<T>(lines: seq<seq<T>>, line: seq<T>, w: T)
    ensures Flatten(lines + [line + [w]]) == Flatten(lines + [line]) + [w]
  {
    FlattenAppend(lines, [line]);
    FlattenAppend(lines, [line + [w]]);
    assert Flatten([line]) == line;
    assert Flatten([line + [w]]) == line + [w];
  }

  lemma StartLine(done: seq<Token>, tolerance: real, lines: seq<seq<Token>>, line: seq<Token>, w: Token)
    requires line != []
    requires IsLineGrouping(done, tolerance, lines + [line])
    requires w.top >= line[0].top + tolerance
    ensures IsLineGrouping(done + [w], tolerance, lines + [line] + [[w]])
  {
    FlattenAppend(lines + [line], [[w]]);
    assert Flatten([[w]]) == [w];
    var before: seq<seq<Token>>, after: seq<seq<Token>> := lines + [line], lines + [line] + [[w]];
    forall k | 0 < k < |after|
      ensures after[k][0].top >= after[k - 1][0].top + tolerance
    {
      if k < |before| {
        assert after[k] == before[k];
        assert after[k - 1] == before[k - 1];
      }
    }
  }

  /** `group_by_lines(words, line_tolerance)`: the lines of `words`, or a
      ParseError when some token is not upright or not left-to-right. */
  method GroupByLines(words: seq<Token>, tolerance: real) returns (r: Result<seq<seq<Token>>>)
    ensures r == if AllHorizontal(words) then Ok(LineGroups(words, tolerance)) else Err(ParseError)
  {
    if words == [] {
      return Ok([]);
    }
    var lineTop := words[0].top;
    var lines: seq<seq<Token>> := [];
    var line: seq<Token> := [];
    var i := 0;
    while i < |words|
      invariant 0 <= i <= |words|
      invariant forall k :: 0 <= k < i ==> IsHorizontal(words[k])
      invariant i == 0 ==> line == [] && lines == [] && lineTop == words[0].top
      invariant i > 0 ==> line != [] && lineTop == line[0].top && IsLineGrouping(words[..i], tolerance, lines + [line])
    {
      var word := words[i];
      if word.upright.GetOr(true) != true {
        return Err(ParseError);
      }
      if word.direction.GetOr("ltr") != "ltr" {
        return Err(ParseError);
      }
      assert words[..i + 1] == words[..i] + [word];
      if word.top >= lineTop + tolerance {
        if i > 0 {
          StartLine(words[..i], tolerance, lines, line, word);
          lines := lines + [line];
        }
        line := [word];
        lineTop := word.top;
        if i == 0 {
          assert Flatten([line]) == line;
        }
      } else {
        if i > 0 {
          ExtendLine(words[..i], tolerance, lines, line, word);
        } else {
          assert Flatten([[word]]) == [word];
        }
        line := line + [word];
      }
      i := i + 1;
    }
    lines := lines + [line];
    assert words[..i] == words;
    LineGroupingUnique(words, tolerance, lines);
    return Ok(lines);
  }
}
