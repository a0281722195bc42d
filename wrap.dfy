/**
 * The conversation panel's word wrap (frontend.py `wrap_text_lines`):
 * words are added to the current line while the rendered line still fits
 * the column, and a word that does not fit starts the next line.
 */
module WordWrap {
  import opened Text

  /**
   * The lines the greedy fill produces from the line under construction
   * and the words still to place; `width` is the font's rendered width.
   */
  function Greedy(current: string, rest: seq<string>, width: string -> nat, maxW: int): (lines: seq<string>)
    ensures |lines| >= 1
    decreases |rest|
  {
    if rest == [] then [current]
    else
      var test := current + " " + rest[0];
      if width(test) <= maxW then Greedy(test, rest[1..], width, maxW)
      else [current] + Greedy(rest[0], rest[1..], width, maxW)
  }

  /** The wrapped lines of a text: one empty line when it has no words. */
  function Wrap(text: string, width: string -> nat, maxW: int): (lines: seq<string>)
    ensures |lines| >= 1
  {
    var ws := Split(text);
    if ws == [] then [""] else Greedy(ws[0], ws[1..], width, maxW)
  }

  /** `wrap_text_lines`, with its accumulator loop over the words. */
  method WrapTextLines(text: string, width: string -> nat, maxW: int) returns (lines: seq<string>)
    ensures lines == Wrap(text, width, maxW)
  {
    var words := Split(text);
    if words == [] {
      return [""];
    }
    lines := [];
    var current := words[0];
    var i := 1;
    while i < |words|
      invariant 1 <= i <= |words|
      invariant lines + Greedy(current, words[i..], width, maxW) == Wrap(text, width, maxW)
    {
      var word := words[i];
      var test := current + " " + word;
      assert words[i..][1..] == words[i + 1..];
      if width(test) <= maxW {
        current := test;
      } else {
        var after := Greedy(word, words[i + 1..], width, maxW);
        assert lines + ([current] + after) == (lines + [current]) + after;
        lines := lines + [current];
        current := word;
      }
      i := i + 1;
    }
    lines := lines + [current];
  }

  // ------------------------------------------------------------ properties

  /** Wrapping only decides where the spaces become line breaks. */
  lemma {:induction false} GreedyJoin(current: string, rest: seq<string>, width: string -> nat, maxW: int)
    ensures JoinSpace(Greedy(current, rest, width, maxW)) == JoinSpace([current] + rest)
    decreases |rest|
  {
    if rest != [] {
      var test := current + " " + rest[0];
      JoinSpaceCons(current, rest);
      if |rest| > 1 {
        JoinSpaceCons(rest[0], rest[1..]);
        assert rest == [rest[0]] + rest[1..];
      } else {
        assert [rest[0]] + rest[1..] == [rest[0]];
      }
      if width(test) <= maxW {
        GreedyJoin(test, rest[1..], width, maxW);
        if |rest| > 1 {
          JoinSpaceCons(test, rest[1..]);
        } else {
          assert [test] + rest[1..] == [test];
        }
      } else {
        var after := Greedy(rest[0], rest[1..], width, maxW);
        GreedyJoin(rest[0], rest[1..], width, maxW);
        JoinSpaceCons(current, after);
      }
    }
  }

  /** The lines hold the text's words, in order, and nothing else. */
  lemma WrapKeepsWords(text: string, width: string -> nat, maxW: int)
    ensures JoinSpace(Wrap(text, width, maxW)) == JoinSpace(Split(text))
    ensures Split(JoinSpace(Wrap(text, width, maxW))) == Split(text)
  {
    var ws := Split(text);
    if ws != [] {
      GreedyJoin(ws[0], ws[1..], width, maxW);
      assert [ws[0]] + ws[1..] == ws;
    }
    SplitJoinSpace(ws);
  }

  /** Every line is a single word or fits the column. */
  lemma {:induction false} GreedyFits(current: string, rest: seq<string>, width: string -> nat, maxW: int)
    requires IsWord(current) || width(current) <= maxW
    requires AllWords(rest)
    ensures forall k :: 0 <= k < |Greedy(current, rest, width, maxW)| ==>
      IsWord(Greedy(current, rest, width, maxW)[k]) || width(Greedy(current, rest, width, maxW)[k]) <= maxW
    decreases |rest|
  {
    if rest != [] {
      var test := current + " " + rest[0];
      if width(test) <= maxW {
        GreedyFits(test, rest[1..], width, maxW);
      } else {
        GreedyFits(rest[0], rest[1..], width, maxW);
      }
    }
  }

  lemma WrapFits(text: string, width: string -> nat, maxW: int)
    ensures forall k :: 0 <= k < |Wrap(text, width, maxW)| ==>
      IsWord(Wrap(text, width, maxW)[k]) || width(Wrap(text, width, maxW)[k]) <= maxW
            || Wrap(text, width, maxW)[k] == []
  {
    var ws := Split(text);
    if ws != [] {
      GreedyFits(ws[0], ws[1..], width, maxW);
    }
  }

  /** The first line starts with the line under construction, followed by nothing or a space. */
  lemma {:induction false} GreedyHead(current: string, rest: seq<string>, width: string -> nat, maxW: int)
    ensures current <= Greedy(current, rest, width, maxW)[0]
    ensures var first := Greedy(current, rest, width, maxW)[0];
      |first| == |current| || first[|current|] == ' '
    decreases |rest|
  {
    if rest != [] {
      var test := current + " " + rest[0];
      if width(test) <= maxW {
        GreedyHead(test, rest[1..], width, maxW);
        var first := Greedy(test, rest[1..], width, maxW)[0];
        assert first[..|test|] == test;
        assert first[..|current|] == test[..|current|];
      }
    }
  }

  /** The first word of a line that starts with a word is that word. */
  lemma FirstWord(current: string, rest: seq<string>, width: string -> nat, maxW: int)
    requires IsWord(current)
    ensures Word(Greedy(current, rest, width, maxW)[0]) == current
  {
    var first := Greedy(current, rest, width, maxW)[0];
    GreedyHead(current, rest, width, maxW);
    var tail := first[|current|..];
    assert first == current + tail;
    WordOf(current, tail);
  }

  /** Each line but the last would overflow with the next line's first word appended. */
  predicate BreaksOnlyWhenFull(lines: seq<string>, width: string -> nat, maxW: int) {
    forall k :: 0 <= k < |lines| - 1 ==> width(lines[k] + " " + Word(lines[k + 1])) > maxW
  }

  /** A line is broken only where the next line's first word would not fit after it. */
  lemma {:induction false} GreedyBreaks(current: string, rest: seq<string>, width: string -> nat, maxW: int)
    requires AllWords(rest)
    ensures BreaksOnlyWhenFull(Greedy(current, rest, width, maxW), width, maxW)
    decreases |rest|
  {
    if rest != [] {
      var test := current + " " + rest[0];
      if width(test) <= maxW {
        GreedyBreaks(test, rest[1..], width, maxW);
      } else {
        var after := Greedy(rest[0], rest[1..], width, maxW);
        GreedyBreaks(rest[0], rest[1..], width, maxW);
        FirstWord(rest[0], rest[1..], width, maxW);
        var lines := [current] + after;
        forall k | 0 <= k < |lines| - 1
          ensures width(lines[k] + " " + Word(lines[k + 1])) > maxW
        {
          if k > 0 {
            assert lines[k] == after[k - 1] && lines[k + 1] == after[k];
          }
        }
      }
    }
  }

  lemma WrapBreaks(text: string, width: string -> nat, maxW: int)
    ensures BreaksOnlyWhenFull(Wrap(text, width, maxW), width, maxW)
  {
    var ws := Split(text);
    if ws != [] {
      GreedyBreaks(ws[0], ws[1..], width, maxW);
    }
  }

  /** Lines filled from words are never empty. */
  lemma {:induction false} GreedyNonEmpty(current: string, rest: seq<string>, width: string -> nat, maxW: int)
    requires current != [] && AllWords(rest)
    ensures forall k :: 0 <= k < |Greedy(current, rest, width, maxW)| ==> Greedy(current, rest, width, maxW)[k] != []
    decreases |rest|
  {
    if rest != [] {
      var test := current + " " + rest[0];
      if width(test) <= maxW {
        GreedyNonEmpty(test, rest[1..], width, maxW);
      } else {
        GreedyNonEmpty(rest[0], rest[1..], width, maxW);
      }
    }
  }

  /** The result is the single empty line exactly when the text is blank. */
  lemma WrapBlank(text: string, width: string -> nat, maxW: int)
    ensures Wrap(text, width, maxW) == [""] <==> Split(text) == []
  {
    var ws := Split(text);
    if ws != [] {
      GreedyNonEmpty(ws[0], ws[1..], width, maxW);
    }
  }
}
