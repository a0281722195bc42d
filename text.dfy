/**
 * The few Python `str` operations that the visualiser and the assistant
 * build on: `strip`, `startswith`, `in`, `split()`, `" ".join`, and the
 * ASCII part of `lower`, `upper` and `capitalize`.
 */
module Text {

  /** Python's `str.isspace()` for one character (the full Unicode set). */
  predicate IsSpace(c: char) {
    c == ' ' || ('\t' <= c <= '\r') || ('\U{1c}' <= c <= '\U{1f}')
    || c == '\U{85}' || c == '\U{a0}' || c == '\U{1680}'
    || ('\U{2000}' <= c <= '\U{200a}') || c == '\U{2028}' || c == '\U{2029}'
    || c == '\U{202f}' || c == '\U{205f}' || c == '\U{3000}'
  }

  /** A string with no whitespace at either end. */
  predicate Stripped(s: string) {
    s == [] || (!IsSpace(s[0]) && !IsSpace(s[|s| - 1]))
  }

  /** A non-empty run of non-whitespace characters: what `split()` yields. */
  predicate IsWord(w: string) {
    |w| > 0 && forall i :: 0 <= i < |w| ==> !IsSpace(w[i])
  }

  predicate AllWords(ws: seq<string>) {
    forall k :: 0 <= k < |ws| ==> IsWord(ws[k])
  }

  // ---------------------------------------------------------------- strip

  /** `s.lstrip()`: drops the leading whitespace and nothing else. */
  function LStrip(s: string): (r: string)
    ensures |r| <= |s| && (|r| > 0 ==> r[|r| - 1] == s[|s| - 1])
    ensures r == [] || !IsSpace(r[0])
  {
    if |s| > 0 && IsSpace(s[0]) then LStrip(s[1..]) else s
  }

  /** `s.rstrip()`: drops the trailing whitespace and nothing else. */
  function RStrip(s: string): (r: string)
    ensures r <= s
    ensures r == [] || !IsSpace(r[|r| - 1])
  {
    if |s| > 0 && IsSpace(s[|s| - 1]) then RStrip(s[..|s| - 1]) else s
  }

  /** `s.strip()`. */
  function Strip(s: string): (r: string)
    ensures Stripped(r) && |r| <= |s|
  {
    LStrip(RStrip(s))
  }

  lemma {:induction false} RStripAppend(a: string, b: string)
    ensures RStrip(a + b) == if RStrip(b) == [] then RStrip(a) else a + RStrip(b)
    decreases |b|
  {
    if |b| == 0 {
      assert a + b == a;
    } else if IsSpace(b[|b| - 1]) {
      assert (a + b)[..|a + b| - 1] == a + b[..|b| - 1];
      RStripAppend(a, b[..|b| - 1]);
    }
  }

  lemma {:induction false} LStripPrepend(a: string, b: string)
    ensures LStrip(a + b) == if LStrip(a) == [] then LStrip(b) else LStrip(a) + b
    decreases |a|
  {
    if |a| == 0 {
      assert a + b == b;
    } else if IsSpace(a[0]) {
      assert (a + b)[1..] == a[1..] + b;
      LStripPrepend(a[1..], b);
    }
  }

  /** Stripping a string that has no outer whitespace leaves it alone. */
  lemma StripStripped(s: string)
    requires Stripped(s)
    ensures Strip(s) == s
  {
  }

  /** A line read with its terminator strips to the same text as without it. */
  lemma {:induction false} StripNewline(s: string)
    ensures Strip(s + "\n") == Strip(s)
  {
    RStripAppend(s, "\n");
    assert RStrip("\n"[..0]) == [];
  }

  // ------------------------------------------------------------ substring

  predicate OccursAt(s: string, sub: string, i: int) {
    0 <= i <= |s| - |sub| && s[i..i + |sub|] == sub
  }

  /** Python's `sub in s`. */
  function Contains(s: string, sub: string): (r: bool)
    decreases |s|
  {
    if sub <= s then true
    else if |s| == 0 then false
    else Contains(s[1..], sub)
  }

  lemma {:induction false} ContainsOccurs(s: string, sub: string)
    ensures Contains(s, sub) <==> exists i :: OccursAt(s, sub, i)
    decreases |s|
  {
    if sub <= s {
      assert OccursAt(s, sub, 0);
    } else if |s| > 0 {
      ContainsOccurs(s[1..], sub);
      assert forall i :: OccursAt(s[1..], sub, i) ==> OccursAt(s, sub, i + 1);
      assert forall i :: OccursAt(s, sub, i) ==> i > 0 && OccursAt(s[1..], sub, i - 1);
    }
  }

  lemma ContainsInfix(a: string, w: string, b: string)
    ensures Contains(a + w + b, w)
  {
    ContainsOccurs(a + w + b, w);
    assert OccursAt(a + w + b, w, |a|);
  }

  /** A string holds any string that is held by one of its pieces. */
  lemma ContainsWithin(s: string, big: string, w: string)
    requires Contains(big, w) && Contains(s, big)
    ensures Contains(s, w)
  {
    ContainsOccurs(s, big);
    ContainsOccurs(big, w);
    ContainsOccurs(s, w);
    var i :| OccursAt(s, big, i);
    var j :| OccursAt(big, w, j);
    assert big == s[i..i + |big|];
    var inS, inBig := s[i + j..i + j + |w|], big[j..j + |w|];
    forall k | 0 <= k < |w|
      ensures inS[k] == inBig[k]
    {
      assert big[j + k] == s[i..i + |big|][j + k];
    }
    assert inS == inBig;
    assert OccursAt(s, w, i + j);
  }

  /** Python's `any(w in s for w in words)`. */
  function AnyIn(words: seq<string>, s: string): (r: bool)
    ensures r <==> exists k :: 0 <= k < |words| && Contains(s, words[k])
  {
    if words == [] then false
    else Contains(s, words[0]) || AnyIn(words[1..], s)
  }

  // ------------------------------------------------------------ case maps

  function LowerChar(c: char): char {
    if 'A' <= c <= 'Z' then (c as int + 32) as char else c
  }

  function UpperChar(c: char): char {
    if 'a' <= c <= 'z' then (c as int - 32) as char else c
  }

  /** `s.lower()` on ASCII letters. */
  function Lower(s: string): (r: string)
    ensures |r| == |s| && forall i :: 0 <= i < |s| ==> r[i] == LowerChar(s[i])
  {
    seq(|s|, i requires 0 <= i < |s| => LowerChar(s[i]))
  }

  /** `s.upper()` on ASCII letters. */
  function Upper(s: string): (r: string)
    ensures |r| == |s| && forall i :: 0 <= i < |s| ==> r[i] == UpperChar(s[i])
  {
    seq(|s|, i requires 0 <= i < |s| => UpperChar(s[i]))
  }

  /** `w.capitalize()`: first character upper case, the rest lower case. */
  function Capitalize(w: string): (r: string)
    ensures |r| == |w|
  {
    if w == [] then [] else [UpperChar(w[0])] + Lower(w[1..])
  }

  // ---------------------------------------------------------- split, join

  /** The longest whitespace-free prefix of s. */
  function Word(s: string): (w: string)
    ensures w <= s
    ensures forall i :: 0 <= i < |w| ==> !IsSpace(w[i])
    ensures |w| < |s| ==> IsSpace(s[|w|])
  {
    if |s| == 0 || IsSpace(s[0]) then [] else [s[0]] + Word(s[1..])
  }

  /** `s.split()`: the maximal runs of non-whitespace, in order. */
  function Split(s: string): (ws: seq<string>)
    ensures AllWords(ws)
    decreases |s|
  {
    var t := LStrip(s);
    if t == [] then []
    else
      var w := Word(t);
      [w] + Split(t[|w|..])
  }

  /** `" ".join(ws)`. */
  function JoinSpace(ws: seq<string>): string {
    if |ws| == 0 then ""
    else if |ws| == 1 then ws[0]
    else JoinSpace(ws[..|ws| - 1]) + " " + ws[|ws| - 1]
  }

  lemma {:induction false} JoinSpaceCons(w: string, ws: seq<string>)
    requires ws != []
    ensures JoinSpace([w] + ws) == w + " " + JoinSpace(ws)
    decreases |ws|
  {
    var all := [w] + ws;
    if |ws| > 1 {
      assert all[..|all| - 1] == [w] + ws[..|ws| - 1];
      JoinSpaceCons(w, ws[..|ws| - 1]);
    } else {
      assert all[..|all| - 1] == [w];
    }
  }

  lemma {:induction false} WordOf(w: string, rest: string)
    requires IsWord(w)
    requires rest == [] || IsSpace(rest[0])
    ensures Word(w + rest) == w
    decreases |w|
  {
    if |w| > 1 {
      assert (w + rest)[1..] == w[1..] + rest;
      WordOf(w[1..], rest);
    } else {
      assert (w + rest)[1..] == rest;
    }
  }

  /** Joining words with one space and splitting again gives the words back. */
  lemma {:induction false} SplitJoinSpace(ws: seq<string>)
    requires AllWords(ws)
    ensures Split(JoinSpace(ws)) == ws
    decreases |ws|
  {
    if |ws| == 1 {
      SplitWord(ws[0]);
    } else if |ws| > 1 {
      assert ws == [ws[0]] + ws[1..];
      SplitCons(ws[0], ws[1..]);
      SplitJoinSpace(ws[1..]);
    }
  }

  lemma SplitWord(w: string)
    requires IsWord(w)
    ensures Split(JoinSpace([w])) == [w]
  {
    WordOf(w, []);
    assert w + [] == w;
    assert w[|w|..] == [];
  }

  lemma SplitCons(w: string, rest: seq<string>)
    requires IsWord(w) && rest != []
    ensures Split(JoinSpace([w] + rest)) == [w] + Split(JoinSpace(rest))
  {
    JoinSpaceCons(w, rest);
    var s := JoinSpace([w] + rest);
    var tail := " " + JoinSpace(rest);
    assert s == w + tail;
    assert LStrip(s) == s;
    WordOf(w, tail);
    assert s[|w|..] == tail;
    assert Split(s) == [w] + Split(tail);
    SplitLeadingSpace(JoinSpace(rest));
  }

  lemma SplitLeadingSpace(x: string)
    ensures Split(" " + x) == Split(x)
  {
    assert (" " + x)[1..] == x;
    assert LStrip(" " + x) == LStrip(x);
  }
}
