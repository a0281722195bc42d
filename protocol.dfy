/**
 * The line protocol between the assistant and the visualiser: what the
 * assistant prints for one spoken query, and what the visualiser's reader
 * thread makes of it after `readline`.
 */
module Protocol {
  import opened Wrappers
  import opened Text
  import opened Backend
  import opened Commands

  /** The speaker names the assistant passes to log_command. */
  function SpeakerName(s: Speaker): string {
    match s
    case You => "YOU"
    case Sidd => "SIDD"
  }

  lemma UpperSpeakerName(s: Speaker)
    ensures Upper(SpeakerName(s)) == SpeakerName(s)
  {
    var n := SpeakerName(s);
    assert forall i :: 0 <= i < |n| ==> UpperChar(n[i]) == n[i];
  }

  lemma RStripTwice(s: string)
    ensures RStrip(RStrip(s)) == RStrip(s)
  {
  }

  /** A leading space does not survive strip. */
  lemma StripLeadingSpace(text: string)
    ensures Strip(" " + text) == Strip(text)
  {
    RStripAppend(" ", text);
    assert RStrip(" ") == RStrip(" "[..0]);
    if RStrip(text) != [] {
      LStripPrepend(" ", RStrip(text));
      assert LStrip(" ") == LStrip(" "[1..]);
    }
  }

  /** Stripping a tag (no whitespace at its ends), a space and some text only trims the text's end. */
  lemma StripTagged(tag: string, text: string)
    requires tag != [] && !IsSpace(tag[0]) && !IsSpace(tag[|tag| - 1])
    ensures Strip(tag + " " + text) == tag + RStrip(" " + text)
  {
    assert tag + " " + text == tag + (" " + text);
    RStripAppend(tag, " " + text);
    if RStrip(" " + text) == [] {
      assert tag + RStrip(" " + text) == tag;
    }
  }

  lemma LogLineShape(s: Speaker, text: string)
    ensures LogLine(SpeakerName(s), text) == (COMMAND_TAG + RoleTag(s)) + " " + text
  {
    UpperSpeakerName(s);
  }

  lemma LoggedLineStrip(s: Speaker, text: string, line: string)
    requires line == (COMMAND_TAG + RoleTag(s)) + " " + text
    ensures Strip(line) == COMMAND_TAG + (RoleTag(s) + RStrip(" " + text))
  {
    var tag := COMMAND_TAG + RoleTag(s);
    var r := RStrip(" " + text);
    TagEnds(s);
    StripTagged(tag, text);
    assert tag + r == COMMAND_TAG + (RoleTag(s) + r);
  }

  /** A line's tags start with '[' and end with ']'. */
  lemma TagEnds(s: Speaker)
    ensures var tag := COMMAND_TAG + RoleTag(s);
      tag != [] && !IsSpace(tag[0]) && !IsSpace(tag[|tag| - 1])
  {
    var tag := COMMAND_TAG + RoleTag(s);
    assert tag[0] == '[';
    assert tag[|tag| - 1] == ']';
  }

  lemma PayloadStrip(s: Speaker, text: string)
    ensures Strip(RoleTag(s) + RStrip(" " + text)) == RoleTag(s) + RStrip(" " + text)
  {
    StripTagged(RoleTag(s), text);
    StripStripped(Strip(RoleTag(s) + " " + text));
  }

  lemma RestStrip(text: string)
    ensures Strip(RStrip(" " + text)) == Strip(text)
  {
    RStripTwice(" " + text);
    StripLeadingSpace(text);
  }

  /** What log_command(SpeakerName(s), text) prints, read back by the visualiser, is s's stripped text. */
  lemma LoggedLineParses(s: Speaker, text: string)
    ensures ParseLine(LogLine(SpeakerName(s), text)) == Some(Entry(s, Strip(text)))
  {
    var r := RStrip(" " + text);
    LogLineShape(s, text);
    LoggedLineStrip(s, text, LogLine(SpeakerName(s), text));
    PayloadStrip(s, text);
    ParseTagged(LogLine(SpeakerName(s), text), RoleTag(s) + r, s, r);
    RestStrip(text);
  }

  // ------------------------------------------------------------ the pipe

  /** The text holds no character the pipe would read as a line end. */
  predicate NoNewline(l: string) {
    forall i :: 0 <= i < |l| ==> l[i] != '\n' && l[i] != '\r'
  }

  /** The three line ends universal newlines recognise. */
  predicate LineBreak(brk: string) {
    brk == "\n" || brk == "\r" || brk == "\r\n"
  }

  /** A lone `\r` is only a line end when no `\n` follows it. */
  predicate BreakEnds(brk: string, rest: string) {
    brk == "\r" ==> rest == [] || rest[0] != '\n'
  }

  /** Text free of line ends passes the translation unchanged, whatever line end follows it. */
  lemma {:induction false} TranslateBreak(l: string, brk: string, rest: string)
    requires NoNewline(l) && LineBreak(brk) && BreakEnds(brk, rest)
    ensures Translate(l + brk + rest) == l + "\n" + Translate(rest)
    decreases |l|
  {
    var s := l + brk + rest;
    if l == [] {
      assert s == brk + rest;
      if brk == "\r\n" {
        assert s[2..] == rest;
      } else {
        assert s[1..] == rest;
      }
    } else {
      assert s[0] == l[0];
      assert s[1..] == l[1..] + brk + rest;
      TranslateBreak(l[1..], brk, rest);
    }
  }

  lemma {:induction false} LineLengthOf(l: string, rest: string)
    requires NoNewline(l)
    ensures LineLength(l + "\n" + rest) == |l| + 1
    decreases |l|
  {
    var s := l + "\n" + rest;
    if l != [] {
      assert s[1..] == l[1..] + "\n" + rest;
      LineLengthOf(l[1..], rest);
    }
  }

  /** Each printed line comes back from readline with its newline. */
  lemma {:induction false} ReadEmitted(lines: seq<string>)
    requires forall k :: 0 <= k < |lines| ==> NoNewline(lines[k])
    ensures |ReadLines(Emit(lines))| == |lines|
    ensures forall k :: 0 <= k < |lines| ==> ReadLines(Emit(lines))[k] == lines[k] + "\n"
  {
    if lines != [] {
      var rest := Emit(lines[1..]);
      assert Emit(lines) == lines[0] + "\n" + rest;
      ReadFirst(lines[0], "\n", rest);
      ReadEmitted(lines[1..]);
      var read := ReadLines(Emit(lines));
      forall k | 0 < k < |lines| ensures read[k] == lines[k] + "\n" {
        assert read[k] == ReadLines(rest)[k - 1];
        assert lines[k] == lines[1..][k - 1];
      }
    }
  }

  lemma ParsedNewline(l: string)
    ensures Parsed(l + "\n") == Parsed(l)
  {
    StripNewline(l);
  }

  lemma {:induction false} ParsedAllPointwise(a: seq<string>, b: seq<string>)
    requires |a| == |b|
    requires forall k :: 0 <= k < |a| ==> Parsed(a[k]) == Parsed(b[k])
    ensures ParsedAll(a) == ParsedAll(b)
    decreases |a|
  {
    if a != [] {
      ParsedAllPointwise(a[..|a| - 1], b[..|b| - 1]);
    }
  }

  /** The visualiser gets the same entries from the pipe as from the printed lines. */
  lemma PipeKeepsEntries(lines: seq<string>)
    requires forall k :: 0 <= k < |lines| ==> NoNewline(lines[k])
    ensures ParsedAll(ReadLines(Emit(lines))) == ParsedAll(lines)
  {
    ReadEmitted(lines);
    var read := ReadLines(Emit(lines));
    forall k | 0 <= k < |lines| ensures Parsed(read[k]) == Parsed(lines[k]) {
      ParsedNewline(lines[k]);
    }
    ParsedAllPointwise(read, lines);
  }

  /**
   * readline takes a line off the front of the stream, whichever line end
   * closes it, and hands it over ending in `\n`.
   */
  lemma ReadFirst(l: string, brk: string, rest: string)
    requires NoNewline(l) && LineBreak(brk) && BreakEnds(brk, rest)
    ensures ReadLines(l + brk + rest) == [l + "\n"] + ReadLines(rest)
  {
    TranslateBreak(l, brk, rest);
    var t := Translate(rest);
    LineLengthOf(l, t);
    var s := l + "\n" + t;
    assert s[..|l| + 1] == l + "\n";
    assert s[|l| + 1..] == t;
  }

  /** The tag log_command puts in front of a text holds no newline. */
  lemma LogLineNoNewline(s: Speaker, text: string)
    requires NoNewline(text)
    ensures NoNewline(LogLine(SpeakerName(s), text))
  {
    LogLineShape(s, text);
    var tag := (COMMAND_TAG + RoleTag(s)) + " ";
    assert NoNewline(tag);
    assert LogLine(SpeakerName(s), text) == tag + text;
  }

  /**
   * `speak` prints any text, and a text may hold a line end (a Wikipedia
   * summary, say): the visualiser gives the speaker only the part before
   * the first `\n`, `\r` or `\r\n`, and reads what follows as lines of
   * their own.
   */
  lemma SpokenMultiline(s: Speaker, a: string, brk: string, b: string)
    requires NoNewline(a) && LineBreak(brk) && BreakEnds(brk, b + "\n")
    ensures ParsedAll(ReadLines(Emit([LogLine(SpeakerName(s), a + brk + b)])))
         == [Entry(s, Strip(a))] + ParsedAll(ReadLines(b + "\n"))
  {
    var l := LogLine(SpeakerName(s), a);
    var rest := ReadLines(b + "\n");
    EmitMultiline(s, a, brk, b);
    LogLineNoNewline(s, a);
    ReadFirst(l, brk, b + "\n");
    ParsedAllConcat([l + "\n"], rest);
    FirstLineEntry(s, a);
  }

  lemma EmitMultiline(s: Speaker, a: string, brk: string, b: string)
    ensures Emit([LogLine(SpeakerName(s), a + brk + b)]) == LogLine(SpeakerName(s), a) + brk + (b + "\n")
  {
    var x := LogLine(SpeakerName(s), a + brk + b);
    assert Emit([x]) == x + "\n" + Emit([]);
  }

  lemma FirstLineEntry(s: Speaker, a: string)
    ensures ParsedAll([LogLine(SpeakerName(s), a) + "\n"]) == [Entry(s, Strip(a))]
  {
    var l := LogLine(SpeakerName(s), a);
    ParsedAllOne(l + "\n");
    ParsedNewline(l);
    LoggedLineParses(s, a);
  }

  /** A continuation line that does not start with the command tag is dropped. */
  lemma ContinuationDropped(b: string)
    requires NoNewline(b) && !IsCommandLine(b)
    ensures ParsedAll(ReadLines(b + "\n")) == []
  {
    ReadFirst(b, "\n", "");
    assert b + "\n" + "" == b + "\n";
    ParsedAllOne(b + "\n");
    ParsedNewline(b);
  }

  /** A two-line text whose second line is plain shows only its first line, under the speaker. */
  lemma MultilineShowsFirstPiece(s: Speaker, a: string, brk: string, b: string)
    requires NoNewline(a) && NoNewline(b) && !IsCommandLine(b) && LineBreak(brk)
    ensures ParsedAll(ReadLines(Emit([LogLine(SpeakerName(s), a + brk + b)]))) == [Entry(s, Strip(a))]
  {
    if BreakEnds(brk, b + "\n") {
      SpokenMultiline(s, a, brk, b);
      ContinuationDropped(b);
    } else {
      // a closing `\r` meets print's `\n`: the pair is one line end
      var l := LogLine(SpeakerName(s), a);
      EmitMultiline(s, a, brk, b);
      assert l + brk + (b + "\n") == l + "\r\n" + "";
      LogLineNoNewline(s, a);
      ReadFirst(l, "\r\n", "");
      assert ReadLines("") == [];
      FirstLineEntry(s, a);
    }
  }

  // ------------------------------------------------------ one query's lines

  const SAD_REPLY: string := "I sense something is bothering you, Sir. I'm here with you."
  const ANGRY_REPLY: string := "I understand your frustration, Sir. I'll try to make things smoother."
  const RETRY_REPLY: string := "Trying again."

  /** The echo `main` prints for an actionable query, without going through log_command. */
  function EchoLine(query: string): string {
    "[COMMAND][YOU] " + query
  }

  /** Whether "try again" repeats a remembered query (a non-empty one). */
  predicate Retries(query: string, lastActionable: Option<string>) {
    query == "try again" && lastActionable.Some? && lastActionable.value != []
  }

  /** The query `main` acts on: "try again" repeats the last actionable query, if there is one. */
  function EffectiveQuery(query: string, lastActionable: Option<string>): string {
    if Retries(query, lastActionable) then lastActionable.value else query
  }

  /** The spoken reply to a sad or angry query. */
  function MoodLines(query: string): seq<string> {
    if MoodOf(query) == Sad then [LogLine("SIDD", SAD_REPLY)]
    else if MoodOf(query) == Angry then [LogLine("SIDD", ANGRY_REPLY)]
    else []
  }

  /** "Trying again." when the query is replaced. */
  function RetryLines(query: string, lastActionable: Option<string>): seq<string> {
    if Retries(query, lastActionable) then [LogLine("SIDD", RETRY_REPLY)] else []
  }

  /** The echo of an actionable query. */
  function EchoLines(q: string): seq<string> {
    if IsActionable(q) then [EchoLine(q)] else []
  }

  /**
   * The lines `main` prints for a query before its command chain: the query
   * itself, a spoken reply to a sad or angry mood, "Trying again." when the
   * query is replaced, then the echo of the query acted on when it is
   * actionable.
   */
  function PreludeLines(query: string, lastActionable: Option<string>): seq<string> {
    [LogLine("YOU", query)] + MoodLines(query) + RetryLines(query, lastActionable)
    + EchoLines(EffectiveQuery(query, lastActionable))
  }

  lemma EchoIsLogged(query: string)
    ensures EchoLine(query) == LogLine(SpeakerName(You), query)
  {
    UpperSpeakerName(You);
  }

  lemma MoodEntries(query: string)
    ensures ParsedAll(MoodLines(query)) ==
      if MoodOf(query) == Sad then [Entry(Sidd, Strip(SAD_REPLY))]
      else if MoodOf(query) == Angry then [Entry(Sidd, Strip(ANGRY_REPLY))] else []
  {
    if MoodOf(query) == Sad {
      LoggedLineParses(Sidd, SAD_REPLY);
      ParsedAllOne(LogLine("SIDD", SAD_REPLY));
    } else if MoodOf(query) == Angry {
      LoggedLineParses(Sidd, ANGRY_REPLY);
      ParsedAllOne(LogLine("SIDD", ANGRY_REPLY));
    }
  }

  lemma RetryEntries(query: string, lastActionable: Option<string>)
    ensures ParsedAll(RetryLines(query, lastActionable)) ==
      if Retries(query, lastActionable) then [Entry(Sidd, RETRY_REPLY)] else []
  {
    if Retries(query, lastActionable) {
      LoggedLineParses(Sidd, RETRY_REPLY);
      assert Stripped(RETRY_REPLY);
      StripStripped(RETRY_REPLY);
      ParsedAllOne(LogLine("SIDD", RETRY_REPLY));
    }
  }

  lemma EchoEntries(q: string)
    ensures ParsedAll(EchoLines(q)) == if IsActionable(q) then [Entry(You, Strip(q))] else []
  {
    if IsActionable(q) {
      EchoIsLogged(q);
      LoggedLineParses(You, q);
      ParsedAllOne(EchoLine(q));
    }
  }

  /**
   * The visualiser shows the query once, the mood reply if any, the retry
   * notice if any, and the query acted on a second time when it is
   * actionable.
   */
  lemma PreludeEntries(query: string, lastActionable: Option<string>)
    ensures ParsedAll(PreludeLines(query, lastActionable)) ==
      [Entry(You, Strip(query))]
      + (if MoodOf(query) == Sad then [Entry(Sidd, Strip(SAD_REPLY))]
         else if MoodOf(query) == Angry then [Entry(Sidd, Strip(ANGRY_REPLY))] else [])
      + (if Retries(query, lastActionable) then [Entry(Sidd, RETRY_REPLY)] else [])
      + (if IsActionable(EffectiveQuery(query, lastActionable))
         then [Entry(You, Strip(EffectiveQuery(query, lastActionable)))] else [])
  {
    var q := EffectiveQuery(query, lastActionable);
    var first := [LogLine("YOU", query)];
    var mood, retry, echo := MoodLines(query), RetryLines(query, lastActionable), EchoLines(q);
    LoggedLineParses(You, query);
    ParsedAllOne(first[0]);
    MoodEntries(query);
    RetryEntries(query, lastActionable);
    EchoEntries(q);
    ParsedAllConcat(first + mood + retry, echo);
    ParsedAllConcat(first + mood, retry);
    ParsedAllConcat(first, mood);
  }

  lemma ParsedAllSnoc1(lines: seq<string>, line: string)
    ensures ParsedAll(lines + [line]) == ParsedAll(lines) + Parsed(line)
  {
    assert (lines + [line])[..|lines|] == lines;
  }

  lemma ParsedAllOne(line: string)
    ensures ParsedAll([line]) == Parsed(line)
  {
    assert [line][..0] == [];
  }

  /** The entries of two runs of lines are those of the first run, then those of the second. */
  lemma {:induction false} ParsedAllConcat(a: seq<string>, b: seq<string>)
    ensures ParsedAll(a + b) == ParsedAll(a) + ParsedAll(b)
    decreases |b|
  {
    if b == [] {
      assert a + b == a;
    } else {
      var init, last := b[..|b| - 1], b[|b| - 1];
      ParsedAllConcat(a, init);
      SnocShape(a, b);
      ParsedAllConcatStep(a, init, last);
    }
  }

  /** One more line after the second run adds its entries at the end of both sides. */
  lemma ParsedAllConcatStep(a: seq<string>, init: seq<string>, last: string)
    requires ParsedAll(a + init) == ParsedAll(a) + ParsedAll(init)
    ensures ParsedAll((a + init) + [last]) == ParsedAll(a) + ParsedAll(init + [last])
  {
    var pa, pi, pl := ParsedAll(a), ParsedAll(init), Parsed(last);
    ParsedAllSnoc1(a + init, last);
    ParsedAllSnoc1(init, last);
    assert (pa + pi) + pl == pa + (pi + pl);
  }

  /** A non-empty run is its front and its last element, with or without a prefix. */
  lemma SnocShape<T>(a: seq<T>, b: seq<T>)
    requires b != []
    ensures b == b[..|b| - 1] + [b[|b| - 1]]
    ensures a + b == (a + b[..|b| - 1]) + [b[|b| - 1]]
  {
  }

  /** Without a mood reply or a retry, the prelude is the query and its echo. */
  lemma NeutralPrelude(query: string)
    requires IsActionable(query)
    requires MoodOf(query) != Sad && MoodOf(query) != Angry
    ensures PreludeLines(query, None) == [LogLine("YOU", query)] + [EchoLine(query)]
  {
    assert MoodLines(query) == [] && RetryLines(query, None) == [];
    assert EchoLines(EffectiveQuery(query, None)) == [EchoLine(query)];
  }

  /** An actionable query with a neutral or happy mood appears twice in a row. */
  lemma ActionableQueryShownTwice(query: string)
    requires IsActionable(query)
    requires MoodOf(query) != Sad && MoodOf(query) != Angry
    ensures ParsedAll(PreludeLines(query, None)) == [Entry(You, Strip(query)), Entry(You, Strip(query))]
  {
    var first, echo := LogLine("YOU", query), EchoLine(query);
    NeutralPrelude(query);
    ParsedAllConcat([first], [echo]);
    ParsedAllOne(first);
    ParsedAllOne(echo);
    LoggedLineParses(You, query);
    EchoIsLogged(query);
  }
}
