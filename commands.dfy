/**
 * The pure helpers of the voice assistant (AI.py): the `[COMMAND]` line it
 * prints for the frontend, the keyword classifiers, the brightness and
 * volume ranges, name capitalisation and the order in which `main` tries
 * its command branches.
 */
module Commands {
  import opened Wrappers
  import opened Text

  // ------------------------------------------------------------ log lines

  /** The text `log_command(speaker, text)` prints (without the newline `print` adds). */
  function LogLine(speaker: string, text: string): string {
    "[COMMAND][" + Upper(speaker) + "] " + text
  }

  /** What a run of `print` calls writes to standard output: each line and a newline. */
  function Emit(lines: seq<string>): string {
    if lines == [] then "" else lines[0] + "\n" + Emit(lines[1..])
  }

  // --------------------------------------------------- keyword classifiers

  const NEGATIVES: seq<string> := ["no", "nope", "don't", "do not", "cancel", "leave", "skip", "stop"]
  const POSITIVES: seq<string> := ["yes", "yeah", "yup", "sure", "ok", "okay", "of course", "teach", "learn"]
  const IGNORED: seq<string> := [
    "hi", "hello", "hey", "good morning", "good evening",
    "how are you", "can you hear me", "what is your name",
    "try again", "quit", "exit", "goodbye", "stop", "get out"
  ]

  /** is_negative_reply: false for empty text, else a negative keyword occurs in the lowered text. */
  function IsNegativeReply(text: string): (r: bool)
    ensures text == [] ==> !r
    ensures r <==> text != [] && exists k :: 0 <= k < |NEGATIVES| && Contains(Lower(text), NEGATIVES[k])
  {
    text != [] && AnyIn(NEGATIVES, Lower(text))
  }

  /** is_positive_reply: false for empty text, else a positive keyword occurs in the lowered text. */
  function IsPositiveReply(text: string): (r: bool)
    ensures text == [] ==> !r
    ensures r <==> text != [] && exists k :: 0 <= k < |POSITIVES| && Contains(Lower(text), POSITIVES[k])
  {
    text != [] && AnyIn(POSITIVES, Lower(text))
  }

  /** is_actionable: no ignored phrase occurs in the query (the query is not lowered here). */
  function IsActionable(q: string): (r: bool)
    ensures r <==> forall k :: 0 <= k < |IGNORED| ==> !Contains(q, IGNORED[k])
  {
    !AnyIn(IGNORED, q)
  }

  /**
   * The keywords match anywhere inside a word: "i know" reads as a refusal and
   * "this" is not actionable, and "not sure" reads as both yes and no.
   */
  lemma SubstringKeywords()
    ensures IsNegativeReply("i know")
    ensures !IsActionable("shift to this window")
    ensures IsPositiveReply("not sure") && IsNegativeReply("not sure")
  {
    assert Lower("i know") == "i know";
    ContainsInfix("i k", "no", "w");
    assert "i k" + "no" + "w" == "i know";
    assert NEGATIVES[0] == "no";
    ContainsInfix("s", "hi", "ft to this window");
    assert "s" + "hi" + "ft to this window" == "shift to this window";
    assert IGNORED[0] == "hi";
    assert Lower("not sure") == "not sure";
    ContainsInfix("", "no", "t sure");
    assert "" + "no" + "t sure" == "not sure";
    ContainsInfix("not ", "sure", "");
    assert "not " + "sure" + "" == "not sure";
    assert POSITIVES[3] == "sure";
  }

  // ---------------------------------------------------------------- moods

  datatype Mood = Sad | Happy | Angry | Neutral {
    /** The string detect_mood returns and stores. */
    function Name(): string {
      match this
      case Sad => "sad"
      case Happy => "happy"
      case Angry => "angry"
      case Neutral => "neutral"
    }
  }

  /** mood_map, in its insertion order: sad, then happy, then angry. */
  const MOOD_TABLE: seq<(Mood, seq<string>)> := [
    (Sad, ["sad", "tired", "depressed", "upset", "lonely"]),
    (Happy, ["happy", "great", "awesome", "excited"]),
    (Angry, ["angry", "annoyed", "frustrated", "irritated"])
  ]

  /** The first mood of the table at or after `from` with a keyword in q, else Neutral. */
  function FirstMood(q: string, from: nat): (m: Mood)
    requires from <= |MOOD_TABLE|
    ensures m == Neutral <==> forall k :: from <= k < |MOOD_TABLE| ==> !AnyIn(MOOD_TABLE[k].1, q)
    ensures m != Neutral ==>
      exists k :: (from <= k < |MOOD_TABLE| && MOOD_TABLE[k].0 == m && AnyIn(MOOD_TABLE[k].1, q)
                   && forall j :: from <= j < k ==> !AnyIn(MOOD_TABLE[j].1, q))
    decreases |MOOD_TABLE| - from
  {
    if from == |MOOD_TABLE| then Neutral
    else if AnyIn(MOOD_TABLE[from].1, q) then MOOD_TABLE[from].0
    else FirstMood(q, from + 1)
  }

  /** The mood detect_mood reports for a query. */
  function MoodOf(query: string): Mood {
    FirstMood(Lower(query), 0)
  }

  /** Sadness is checked first: a query with a sad keyword is sad whatever else it holds. */
  lemma SadComesFirst(query: string)
    requires AnyIn(MOOD_TABLE[0].1, Lower(query))
    ensures MoodOf(query) == Sad
  {
  }

  // ------------------------------------------------- brightness and volume

  /** The step increase_brightness and decrease_brightness use by default. */
  const BRIGHTNESS_STEP: int := 10

  /** increase_brightness: `min(100, current + step)`. */
  function IncreasedBrightness(current: int, step: int): (r: int)
    ensures r <= 100
    ensures 0 <= current <= 100 && step >= 0 ==> current <= r <= 100
    ensures r == current + step || r == 100
    ensures r <= current + step
    ensures r == 100 <==> current + step >= 100
  {
    if current + step < 100 then current + step else 100
  }

  /** decrease_brightness: `max(0, current - step)`. */
  function DecreasedBrightness(current: int, step: int): (r: int)
    ensures r >= 0
    ensures 0 <= current <= 100 && step >= 0 ==> 0 <= r <= current
    ensures r == current - step || r == 0
    ensures r >= current - step
    ensures r == 0 <==> current - step <= 0
  {
    if current - step > 0 then current - step else 0
  }

  /** A step up that does not reach the ceiling is undone by the same step down. */
  lemma BrightnessStepsUndo(current: int, step: int)
    requires 0 <= current && 0 <= step && current + step <= 100
    ensures DecreasedBrightness(IncreasedBrightness(current, step), step) == current
  {
  }

  predicate IsDigit(c: char) {
    '0' <= c <= '9'
  }

  predicate AllDigits(s: string) {
    forall i :: 0 <= i < |s| ==> IsDigit(s[i])
  }

  function DigitsValue(s: string): (n: nat)
    requires AllDigits(s)
  {
    if s == [] then 0 else 10 * DigitsValue(s[..|s| - 1]) + (s[|s| - 1] as int - '0' as int)
  }

  /**
   * Python's `int(text)` for a decimal literal: surrounding whitespace, an
   * optional sign, then at least one digit; anything else is a ValueError.
   */
  function ParseInt(text: string): (r: Option<int>)
  {
    var t := Strip(text);
    if t == [] then None
    else if t[0] == '-' || t[0] == '+' then
      var digits := t[1..];
      if digits != [] && AllDigits(digits) then
        var n: int := DigitsValue(digits);
        Some(if t[0] == '-' then -n else n)
      else None
    else if AllDigits(t) then Some(DigitsValue(t))
    else None
  }

  function DigitChar(d: nat): char
    requires d < 10
  {
    ('0' as int + d) as char
  }

  /** `str(n)` for a natural number. */
  function ShowNat(n: nat): (s: string)
    ensures s != [] && AllDigits(s) && DigitsValue(s) == n
    ensures IsDigit(s[0])
  {
    var last := [DigitChar(n % 10)];
    if n < 10 then last
    else
      var s := ShowNat(n / 10) + last;
      assert s[..|s| - 1] == ShowNat(n / 10);
      s
  }

  /** `str(i)` for an integer. */
  function ShowInt(i: int): string {
    if i < 0 then "-" + ShowNat(-i) else ShowNat(i)
  }

  /** Reading back a printed integer gives the integer. */
  lemma ParseShowInt(i: int)
    ensures ParseInt(ShowInt(i)) == Some(i)
  {
    var s := ShowInt(i);
    assert Stripped(s);
    StripStripped(s);
    if i < 0 {
      assert s[1..] == ShowNat(-i);
    }
  }

  datatype VolumeOutcome = Applied(level: int) | OutOfRange(level: int) | NotANumber

  /** set_volume: the level is applied only when it reads as an integer in 0..100. */
  function SetVolume(level: string): (r: VolumeOutcome)
    ensures r.Applied? <==> ParseInt(level).Some? && 0 <= ParseInt(level).value <= 100
    ensures r.Applied? ==> r.level == ParseInt(level).value
    ensures r == NotANumber <==> ParseInt(level) == None
  {
    match ParseInt(level)
    case None => NotANumber
    case Some(n) => if 0 <= n <= 100 then Applied(n) else OutOfRange(n)
  }

  /** A spoken number is applied exactly when it lies in 0..100. */
  lemma VolumeOfNumber(n: int)
    ensures SetVolume(ShowInt(n)) == if 0 <= n <= 100 then Applied(n) else OutOfRange(n)
  {
    ParseShowInt(n);
  }

  // --------------------------------------------------------------- names

  /** The words of a list, each capitalised. */
  function CapitalizeAll(ws: seq<string>): (r: seq<string>)
    ensures |r| == |ws|
    ensures forall k :: 0 <= k < |ws| ==> r[k] == Capitalize(ws[k])
  {
    if ws == [] then [] else [Capitalize(ws[0])] + CapitalizeAll(ws[1..])
  }

  /** `" ".join(part.capitalize() for part in name.split())`. */
  function CapitalizeName(name: string): string {
    JoinSpace(CapitalizeAll(Split(name)))
  }

  lemma CapitalizeKeepsWord(w: string)
    requires IsWord(w)
    ensures IsWord(Capitalize(w))
  {
    var c := Capitalize(w);
    forall i | 0 <= i < |c| ensures !IsSpace(c[i]) {
      assert !IsSpace(w[i]);
    }
  }

  lemma CapitalizeTwice(w: string)
    ensures Capitalize(Capitalize(w)) == Capitalize(w)
  {
    if w != [] {
      var c := Capitalize(w);
      assert c[1..] == Lower(w[1..]);
    }
  }

  /**
   * The capitalised name has the same words as the spoken name, each
   * capitalised, and capitalising it again changes nothing.
   */
  lemma {:induction false} CapitalizeNameWords(name: string)
    ensures Split(CapitalizeName(name)) == CapitalizeAll(Split(name))
    ensures CapitalizeName(CapitalizeName(name)) == CapitalizeName(name)
  {
    var ws := Split(name);
    var cs := CapitalizeAll(ws);
    forall k | 0 <= k < |cs| ensures IsWord(cs[k]) {
      CapitalizeKeepsWord(ws[k]);
    }
    SplitJoinSpace(cs);
    forall k | 0 <= k < |cs| ensures Capitalize(cs[k]) == cs[k] {
      CapitalizeTwice(ws[k]);
    }
    assert CapitalizeAll(cs) == cs;
  }

  /** The index just after the first occurrence of sep in s. */
  function AfterFirst(s: string, sep: string): (i: nat)
    requires Contains(s, sep)
    ensures |sep| <= i <= |s| && s[i - |sep|..i] == sep
    decreases |s|
  {
    if sep <= s then |sep|
    else
      var i := 1 + AfterFirst(s[1..], sep);
      TailSlice(s, i - |sep|, i);
      i
  }

  lemma TailSlice(s: string, a: int, b: int)
    requires 1 <= a <= b <= |s|
    ensures s[a..b] == s[1..][a - 1..b - 1]
  {
    var t := s[1..];
    assert |s[a..b]| == |t[a - 1..b - 1]|;
    forall k | 0 <= k < b - a ensures s[a..b][k] == t[a - 1..b - 1][k] {
      assert s[a..b][k] == s[a + k];
      assert t[a - 1..b - 1][k] == t[a - 1 + k];
    }
  }

  /**
   * The "my name is" branch: the stripped text after the first occurrence
   * of the phrase, capitalised; None when nothing follows it.
   */
  function SpokenName(query: string, phrase: string): (r: Option<string>)
    requires Contains(query, phrase)
    ensures r.None? <==> Strip(query[AfterFirst(query, phrase)..]) == []
    ensures r.Some? ==> Split(r.value) == CapitalizeAll(Split(Strip(query[AfterFirst(query, phrase)..])))
    ensures r.Some? ==> Split(r.value) != [] && CapitalizeName(r.value) == r.value
  {
    var rest := query[AfterFirst(query, phrase)..];
    var name := Strip(rest);
    if name == [] then None
    else
      CapitalizeNameWords(name);
      Some(CapitalizeName(name))
  }
}
