/**
 * The frontend's link to the assistant process (listen_to_ai_backend in
 * frontend.py): the reader splits the child's standard output into lines,
 * keeps only the lines tagged `[COMMAND][YOU]` or `[COMMAND][SIDD]`, and
 * appends them to a transcript that holds at most the newest 100 entries.
 */
module Backend {
  import opened Wrappers
  import opened Text

  datatype Speaker = You | Sidd

  /** One transcript entry, the pair `(speaker, text)` of COMMANDS. */
  datatype Entry = Entry(speaker: Speaker, text: string)

  const COMMAND_TAG: string := "[COMMAND]"
  const YOU_TAG: string := "[YOU]"
  const SIDD_TAG: string := "[SIDD]"

  /** The transcript is trimmed back to this many entries. */
  const MAX_ENTRIES: nat := 100

  /** The role tag that introduces a speaker's text on a command line. */
  function RoleTag(s: Speaker): string {
    match s
    case You => YOU_TAG
    case Sidd => SIDD_TAG
  }

  /** After stripping, the line starts with `[COMMAND]`; other lines are skipped. */
  predicate IsCommandLine(line: string) {
    COMMAND_TAG <= Strip(line)
  }

  /**
   * The transcript entry one line of output yields: a stripped command line
   * whose stripped payload starts with `[YOU]` or `[SIDD]` gives that role
   * and the stripped rest (which may be empty); every other line gives none.
   */
  function ParseLine(line: string): (r: Option<Entry>)
    ensures r.Some? ==> IsCommandLine(line) && Stripped(r.value.text)
    ensures r.Some? ==> |r.value.text| < |line|
  {
    var l := Strip(line);
    if !(COMMAND_TAG <= l) then None
    else
      var payload := Strip(l[|COMMAND_TAG|..]);
      if YOU_TAG <= payload then Some(Entry(You, Strip(payload[|YOU_TAG|..])))
      else if SIDD_TAG <= payload then Some(Entry(Sidd, Strip(payload[|SIDD_TAG|..])))
      else None
  }

  /** A command line whose payload carries a role tag yields exactly that role and the stripped rest. */
  lemma ParseTagged(line: string, payload: string, s: Speaker, rest: string)
    requires Strip(line) == COMMAND_TAG + payload
    requires Strip(payload) == RoleTag(s) + rest
    ensures ParseLine(line) == Some(Entry(s, Strip(rest)))
  {
    assert Strip(line)[|COMMAND_TAG|..] == payload;
    assert RoleTag(s) <= Strip(payload);
    assert Strip(payload)[|RoleTag(s)|..] == rest;
    if s == Sidd {
      assert Strip(payload)[1] == 'S';
      assert !(YOU_TAG <= Strip(payload));
    }
  }

  /** A command line whose payload has no role tag yields nothing. */
  lemma ParseUntagged(line: string)
    requires IsCommandLine(line)
    requires !(YOU_TAG <= Strip(Strip(line)[|COMMAND_TAG|..]))
    requires !(SIDD_TAG <= Strip(Strip(line)[|COMMAND_TAG|..]))
    ensures ParseLine(line) == None
  {
  }

  /** The entries one line contributes: none or one. */
  function Parsed(line: string): (es: seq<Entry>)
    ensures |es| <= 1
  {
    match ParseLine(line)
    case None => []
    case Some(e) => [e]
  }

  /** The entries a run of lines contributes, in order. */
  function ParsedAll(lines: seq<string>): (es: seq<Entry>)
    ensures |es| <= |lines|
  {
    if lines == [] then [] else ParsedAll(lines[..|lines| - 1]) + Parsed(lines[|lines| - 1])
  }

  /** `COMMANDS[-100:]` when the list has grown past 100, else the list itself. */
  function Cap(s: seq<Entry>): (r: seq<Entry>)
    ensures |r| <= MAX_ENTRIES
    ensures |r| <= |s| && forall k :: 0 <= k < |r| ==> r[k] == s[|s| - |r| + k]
    ensures |s| <= MAX_ENTRIES ==> r == s
    ensures |s| >= MAX_ENTRIES ==> |r| == MAX_ENTRIES
  {
    if |s| > MAX_ENTRIES then s[|s| - MAX_ENTRIES..] else s
  }

  /** Trimming at every step keeps the same entries as trimming once at the end. */
  lemma CapAppend(s: seq<Entry>, t: seq<Entry>)
    ensures Cap(Cap(s) + t) == Cap(s + t)
  {
    if |s| > MAX_ENTRIES {
      var c := Cap(s);
      if |c + t| > MAX_ENTRIES {
        assert (c + t)[|c + t| - MAX_ENTRIES..] == (s + t)[|s + t| - MAX_ENTRIES..];
      }
    }
  }

  /** Once at least 100 entries arrive, only the newest 100 of them remain, oldest first. */
  lemma CapKeepsNewest(old_: seq<Entry>, arrived: seq<Entry>)
    requires |arrived| >= MAX_ENTRIES
    ensures Cap(old_ + arrived) == arrived[|arrived| - MAX_ENTRIES..]
  {
    assert (old_ + arrived)[|old_ + arrived| - MAX_ENTRIES..] == arrived[|arrived| - MAX_ENTRIES..];
  }

  lemma ParsedAllSnoc(lines: seq<string>, i: nat)
    requires i < |lines|
    ensures ParsedAll(lines[..i + 1]) == ParsedAll(lines[..i]) + Parsed(lines[i])
  {
    assert lines[..i + 1][..i] == lines[..i];
  }

  /** One more line read keeps the transcript equal to the trimmed whole history. */
  lemma ListenStep(start: seq<Entry>, lines: seq<string>, i: nat, before: seq<Entry>, after: seq<Entry>)
    requires i < |lines|
    requires before == Cap(start + ParsedAll(lines[..i]))
    requires after == if IsCommandLine(lines[i]) then Cap(before + Parsed(lines[i])) else before
    ensures after == Cap(start + ParsedAll(lines[..i + 1]))
  {
    var history := start + ParsedAll(lines[..i]);
    ParsedAllSnoc(lines, i);
    assert start + ParsedAll(lines[..i + 1]) == history + Parsed(lines[i]);
    CapAppend(history, Parsed(lines[i]));
    if !IsCommandLine(lines[i]) {
      assert Parsed(lines[i]) == [];
      assert history + Parsed(lines[i]) == history;
    }
  }

  /** The length of the first line of a non-empty stream, counting its `\n`. */
  function LineLength(s: string): (n: nat)
    requires s != []
    ensures 0 < n <= |s|
    ensures forall i :: 0 <= i < n - 1 ==> s[i] != '\n'
    ensures n < |s| ==> s[n - 1] == '\n'
  {
    if s[0] == '\n' || |s| == 1 then 1 else 1 + LineLength(s[1..])
  }

  /**
   * The pipe is opened in text mode, so Python's universal newlines apply:
   * a `\r\n` pair and a lone `\r` both reach the reader as `\n`.
   */
  function Translate(s: string): (t: string)
    ensures |t| <= |s|
    decreases |s|
  {
    if s == [] then ""
    else if s[0] == '\r' then
      if |s| > 1 && s[1] == '\n' then "\n" + Translate(s[2..]) else "\n" + Translate(s[1..])
    else [s[0]] + Translate(s[1..])
  }

  /** No carriage return survives the translation, and text without one passes unchanged. */
  lemma {:induction false} TranslateNoCarriageReturn(s: string)
    ensures NoReturn(Translate(s))
    ensures NoReturn(s) ==> Translate(s) == s
    decreases |s|
  {
    if s != [] {
      if s[0] == '\r' {
        if |s| > 1 && s[1] == '\n' {
          TranslateNoCarriageReturn(s[2..]);
        } else {
          TranslateNoCarriageReturn(s[1..]);
        }
      } else {
        TranslateNoCarriageReturn(s[1..]);
        if NoReturn(s) {
          assert NoReturn(s[1..]);
          assert s == [s[0]] + s[1..];
        }
      }
    }
  }

  /** The text holds no carriage return. */
  predicate NoReturn(s: string) {
    forall i :: 0 <= i < |s| ==> s[i] != '\r'
  }

  /** The translated text cut after each `\n`; a last line may lack one. */
  function SplitLines(text: string): (lines: seq<string>)
    ensures forall k :: 0 <= k < |lines| ==> lines[k] != []
    decreases |text|
  {
    if text == [] then []
    else
      var n := LineLength(text);
      [text[..n]] + SplitLines(text[n..])
  }

  /**
   * The successive results of `proc.stdout.readline()` up to end of file:
   * each line keeps its terminating newline, written `\n` whatever it was
   * on the wire.
   */
  function ReadLines(stream: string): (lines: seq<string>)
    ensures forall k :: 0 <= k < |lines| ==> lines[k] != []
  {
    SplitLines(Translate(stream))
  }

  /**
   * readline splits the translated stream and nothing more: the lines join
   * back into it, a newline is only ever a line's last character, every
   * line but the last ends in one, and no line holds a carriage return.
   */
  lemma ReadLinesSplit(stream: string)
    ensures Concat(ReadLines(stream)) == Translate(stream)
    ensures forall k :: 0 <= k < |ReadLines(stream)| - 1 ==> EndsLine(ReadLines(stream)[k])
    ensures forall k :: 0 <= k < |ReadLines(stream)| ==> OneLine(ReadLines(stream)[k])
    ensures forall k :: 0 <= k < |ReadLines(stream)| ==> NoReturn(ReadLines(stream)[k])
  {
    TranslateNoCarriageReturn(stream);
    SplitLinesJoin(Translate(stream));
    SplitLinesNoReturn(Translate(stream));
  }

  lemma {:induction false} SplitLinesJoin(text: string)
    ensures Concat(SplitLines(text)) == text
    ensures forall k :: 0 <= k < |SplitLines(text)| - 1 ==> EndsLine(SplitLines(text)[k])
    ensures forall k :: 0 <= k < |SplitLines(text)| ==> OneLine(SplitLines(text)[k])
    decreases |text|
  {
    if text != [] {
      var n := LineLength(text);
      var rest := SplitLines(text[n..]);
      SplitLinesJoin(text[n..]);
      assert SplitLines(text) == [text[..n]] + rest;
      assert text[..n] + text[n..] == text;
      assert ([text[..n]] + rest)[1..] == rest;
    }
  }

  lemma {:induction false} SplitLinesNoReturn(text: string)
    requires NoReturn(text)
    ensures forall k :: 0 <= k < |SplitLines(text)| ==> NoReturn(SplitLines(text)[k])
    decreases |text|
  {
    if text != [] {
      var n := LineLength(text);
      var rest := SplitLines(text[n..]);
      assert NoReturn(text[n..]);
      SplitLinesNoReturn(text[n..]);
      assert SplitLines(text) == [text[..n]] + rest;
      assert NoReturn(text[..n]);
    }
  }

  /** The lines joined back together. */
  function Concat(lines: seq<string>): string {
    if lines == [] then "" else lines[0] + Concat(lines[1..])
  }

  /** The line ends with a newline. */
  predicate EndsLine(l: string) {
    l != [] && l[|l| - 1] == '\n'
  }

  /** A newline can only be the line's last character. */
  predicate OneLine(l: string) {
    forall i :: 0 <= i < |l| - 1 ==> l[i] != '\n'
  }

  /** The COMMANDS list shared between the reader thread and the panel. */
  class Transcript {
    var entries: seq<Entry>

    ghost predicate Valid()
      reads this
    {
      |entries| <= MAX_ENTRIES
    }

    /** The two entries COMMANDS starts with. */
    constructor ()
      ensures Valid()
      ensures entries == [Entry(Sidd, "System boot complete."), Entry(You, "Initialize diagnostics.")]
    {
      entries := [Entry(Sidd, "System boot complete."), Entry(You, "Initialize diagnostics.")];
    }

    /** The body of the reader loop for one line. */
    method Receive(line: string)
      requires Valid()
      modifies this
      ensures Valid()
      ensures !IsCommandLine(line) ==> entries == old(entries)
      ensures IsCommandLine(line) ==> entries == Cap(old(entries) + Parsed(line))
    {
      if !IsCommandLine(line) {
        return;
      }
      match ParseLine(line) {
        case Some(e) => entries := entries + [e];
        case None =>
      }
      if |entries| > MAX_ENTRIES {
        entries := entries[|entries| - MAX_ENTRIES..];
      }
    }

    /**
     * The reader loop over every line up to end of file: the transcript ends
     * as the newest 100 of the old entries followed by every parsed entry.
     */
    method Listen(lines: seq<string>)
      requires Valid()
      modifies this
      ensures Valid()
      ensures entries == Cap(old(entries) + ParsedAll(lines))
    {
      var i := 0;
      assert old(entries) + ParsedAll(lines[..0]) == old(entries);
      while i < |lines|
        invariant 0 <= i <= |lines|
        invariant Valid()
        invariant entries == Cap(old(entries) + ParsedAll(lines[..i]))
      {
        ghost var before := entries;
        Receive(lines[i]);
        ListenStep(old(entries), lines, i, before, entries);
        i := i + 1;
      }
      assert lines[..|lines|] == lines;
    }
  }
}
