/**
 * The conversation panel of the visualiser (frontend.py
 * `draw_conversation_panel`): the last ten transcript entries are wrapped
 * into the text column and laid out one line every 18 pixels, the first
 * line of each entry carrying its speaker's label, until the next line
 * would start below the footer.
 */
module Conversation {
  import opened Wrappers
  import opened Backend
  import opened WordWrap

  const PAD: int := 10
  /** From the top of the content area to the divider under the title. */
  const HEADER: int := 36
  /** From the divider to the first chat line. */
  const GAP: int := 8
  const LINE_H: int := 18
  const SPEAKER_COL: int := 70
  /** Room kept for the footer, above the bottom padding. */
  const FOOTER: int := 20
  /** How many of the newest entries the panel considers. */
  const SHOWN: nat := 10

  /** The y of the first chat line of a panel whose top is at y. */
  function Top(y: int): int {
    y + PAD + HEADER + GAP
  }

  /** `bottom_limit`: a line may start at this y but not below it. */
  function Bottom(y: int, h: int): int {
    y + h - PAD - FOOTER
  }

  /** `text_max_w`: the width of the text column. */
  function TextWidth(w: int): int {
    w - 2 * PAD - SPEAKER_COL
  }

  /** A line to draw: its speaker label (first line of an entry only) and its text. */
  datatype Slot = Slot(speaker: Option<Speaker>, text: string)

  /** A drawn line: a slot and the y it is drawn at. */
  datatype Row = Row(speaker: Option<Speaker>, text: string, y: int)

  /** `msgs[-10:]`. */
  function Newest(msgs: seq<Entry>): (r: seq<Entry>)
    ensures |r| == if |msgs| < SHOWN then |msgs| else SHOWN
    ensures r == msgs[|msgs| - |r|..]
  {
    if |msgs| <= SHOWN then msgs else msgs[|msgs| - SHOWN..]
  }

  /** The lines of one entry's wrapped text, the speaker label on the first. */
  function Labelling(speaker: Speaker, lines: seq<string>): (slots: seq<Slot>)
    ensures |slots| == |lines| && forall k :: 0 <= k < |slots| ==> slots[k].text == lines[k]
    ensures lines != [] ==> slots[0].speaker == Some(speaker)
    ensures forall k :: 0 < k < |slots| ==> slots[k].speaker == None
    ensures Labelled(slots) == if lines == [] then 0 else 1
  {
    var slots := seq(|lines|, k requires 0 <= k < |lines| => Slot(if k == 0 then Some(speaker) else None, lines[k]));
    assert slots != [] ==> Labelled(slots[1..]) == 0 by {
      if slots != [] {
        NoLabels(slots[1..]);
      }
    }
    slots
  }

  /** The lines of one entry. */
  function EntrySlots(e: Entry, width: string -> nat, maxW: int): (slots: seq<Slot>)
    ensures |slots| >= 1 && slots[0].speaker == Some(e.speaker)
  {
    Labelling(e.speaker, Wrap(e.text, width, maxW))
  }

  /** The lines of several entries, in order. */
  function Slots(msgs: seq<Entry>, width: string -> nat, maxW: int): (slots: seq<Slot>)
    ensures |slots| >= |msgs|
  {
    if msgs == [] then [] else EntrySlots(msgs[0], width, maxW) + Slots(msgs[1..], width, maxW)
  }

  /**
   * The rows drawn for a run of lines starting at y: each line LINE_H below
   * the previous one, stopping before the first line that would start
   * below `bottom`.
   */
  function Placed(slots: seq<Slot>, y: int, bottom: int): seq<Row>
    decreases |slots|
  {
    if slots == [] || y > bottom then []
    else [Row(slots[0].speaker, slots[0].text, y)] + Placed(slots[1..], y + LINE_H, bottom)
  }

  /**
   * The placed rows are the first lines of the run, each LINE_H below the
   * previous one and none below `bottom`; placement stops early only when
   * the next line would start below `bottom`.
   */
  lemma {:induction false} PlacedRows(slots: seq<Slot>, y: int, bottom: int)
    ensures |Placed(slots, y, bottom)| <= |slots|
    ensures forall k :: 0 <= k < |Placed(slots, y, bottom)| ==>
      Placed(slots, y, bottom)[k] == Row(slots[k].speaker, slots[k].text, y + LINE_H * k)
      && Placed(slots, y, bottom)[k].y <= bottom
    ensures |Placed(slots, y, bottom)| == |slots| || y + LINE_H * |Placed(slots, y, bottom)| > bottom
    decreases |slots|
  {
    if slots != [] && y <= bottom {
      PlacedRows(slots[1..], y + LINE_H, bottom);
    }
  }

  /**
   * The chat area of `draw_conversation_panel` for a panel at y of size
   * w by h, with the font's width function: the loop over the newest
   * entries, with its two `bottom_limit` exits.
   */
  method Layout(commands: seq<Entry>, y: int, w: int, h: int, width: string -> nat) returns (rows: seq<Row>)
    ensures rows == Placed(Slots(Newest(commands), width, TextWidth(w)), Top(y), Bottom(y, h))
  {
    var msgs := Newest(commands);
    var bottom := Bottom(y, h);
    var maxW := TextWidth(w);
    ghost var all := Placed(Slots(msgs, width, maxW), Top(y), bottom);
    rows := [];
    var lineY := Top(y);
    var j := 0;
    while j < |msgs|
      invariant 0 <= j <= |msgs|
      invariant rows + Placed(Slots(msgs[j..], width, maxW), lineY, bottom) == all
    {
      if lineY > bottom {
        break;
      }
      var e := msgs[j];
      var wrapped := WrapTextLines(e.text, width, maxW);
      var drawn, nextY := DrawEntry(e.speaker, wrapped, lineY, bottom);
      ghost var mine := EntrySlots(e, width, maxW);
      ghost var later := Slots(msgs[j + 1..], width, maxW);
      SlotsFrom(msgs, j, width, maxW);
      EntryStep(rows, mine, later, lineY, bottom, all, drawn, nextY);
      rows := rows + drawn;
      lineY := nextY;
      j := j + 1;
      assert rows + Placed(later, lineY, bottom) == all;
      if lineY > bottom {
        break;
      }
    }
    Finish(rows, Slots(msgs[j..], width, maxW), lineY, bottom, all);
  }

  /**
   * The inner loop of `draw_conversation_panel`: one entry's wrapped lines
   * from y down, stopping at `bottom`; returns the rows and the next y.
   */
  method DrawEntry(speaker: Speaker, wrapped: seq<string>, y: int, bottom: int)
      returns (drawn: seq<Row>, nextY: int)
    ensures drawn == Placed(Labelling(speaker, wrapped), y, bottom)
    ensures nextY == y + LINE_H * |drawn|
  {
    ghost var slots := Labelling(speaker, wrapped);
    drawn := [];
    nextY := y;
    var i := 0;
    while i < |wrapped|
      invariant 0 <= i <= |wrapped|
      invariant nextY == y + LINE_H * |drawn|
      invariant drawn + Placed(slots[i..], nextY, bottom) == Placed(slots, y, bottom)
    {
      if nextY > bottom {
        break;
      }
      var tag := if i == 0 then Some(speaker) else None;
      assert slots[i..][0] == Slot(tag, wrapped[i]);
      assert slots[i..][1..] == slots[i + 1..];
      PlaceOne(drawn, slots[i..], nextY, bottom, Placed(slots, y, bottom));
      drawn := drawn + [Row(tag, wrapped[i], nextY)];
      nextY := nextY + LINE_H;
      i := i + 1;
    }
    if i == |wrapped| {
      assert slots[i..] == [];
    }
    Finish(drawn, slots[i..], nextY, bottom, Placed(slots, y, bottom));
  }

  /**
   * One step of the entry loop: drawing an entry's lines and moving on to
   * the next entry keeps the rows still to draw, and when the entry was cut
   * short nothing is left to draw.
   */
  lemma EntryStep(rows: seq<Row>, mine: seq<Slot>, later: seq<Slot>, y: int, bottom: int, all: seq<Row>,
                  drawn: seq<Row>, nextY: int)
    requires rows + Placed(mine + later, y, bottom) == all
    requires drawn == Placed(mine, y, bottom) && nextY == y + LINE_H * |drawn|
    ensures (rows + drawn) + Placed(later, nextY, bottom) == all
  {
    PlacedAppend(mine, later, y, bottom);
    PlacedRows(mine, y, bottom);
    var rest := Placed(later, y + LINE_H * |mine|, bottom);
    if |drawn| < |mine| {
      assert y + LINE_H * |mine| > bottom;
      assert rest == [];
      assert nextY > bottom;
    }
    assert rows + (drawn + rest) == (rows + drawn) + rest;
  }

  /** One step of the line loop: the next row drawn is the first row still to place. */
  lemma PlaceOne(rows: seq<Row>, rest: seq<Slot>, y: int, bottom: int, all: seq<Row>)
    requires rest != [] && y <= bottom
    requires rows + Placed(rest, y, bottom) == all
    ensures (rows + [Row(rest[0].speaker, rest[0].text, y)]) + Placed(rest[1..], y + LINE_H, bottom) == all
  {
    var row := Row(rest[0].speaker, rest[0].text, y);
    var after := Placed(rest[1..], y + LINE_H, bottom);
    assert Placed(rest, y, bottom) == [row] + after;
    assert rows + ([row] + after) == (rows + [row]) + after;
  }

  lemma SlotsFrom(msgs: seq<Entry>, j: nat, width: string -> nat, maxW: int)
    requires j < |msgs|
    ensures Slots(msgs[j..], width, maxW) == EntrySlots(msgs[j], width, maxW) + Slots(msgs[j + 1..], width, maxW)
  {
    assert msgs[j..][1..] == msgs[j + 1..];
  }

  /** The loops stop when no line is left or the next one would start below `bottom`. */
  lemma Finish(rows: seq<Row>, rest: seq<Slot>, y: int, bottom: int, all: seq<Row>)
    requires rest == [] || y > bottom
    requires rows + Placed(rest, y, bottom) == all
    ensures rows == all
  {
    assert rows + [] == rows;
  }

  // ------------------------------------------------------------ properties
  /** How many lines fit: every line when there is room, else one per LINE_H from top to bottom. */
  lemma RowCount(slots: seq<Slot>, y: int, bottom: int)
    ensures |Placed(slots, y, bottom)| ==
      if y > bottom then 0
      else if |slots| <= (bottom - y) / LINE_H + 1 then |slots|
      else (bottom - y) / LINE_H + 1
  {
    PlacedRows(slots, y, bottom);
    var rows := Placed(slots, y, bottom);
    var n := |rows|;
    if n > 0 {
      assert rows[n - 1].y <= bottom;
    }
  }

  /** Placing two runs of lines is placing the first, then the second below it. */
  lemma {:induction false} PlacedAppend(a: seq<Slot>, b: seq<Slot>, y: int, bottom: int)
    ensures Placed(a + b, y, bottom) == Placed(a, y, bottom) + Placed(b, y + LINE_H * |a|, bottom)
    decreases |a|
  {
    if a == [] {
      assert a + b == b;
    } else if y > bottom {
      assert y + LINE_H * |a| > bottom;
    } else {
      assert (a + b)[1..] == a[1..] + b;
      PlacedAppend(a[1..], b, y + LINE_H, bottom);
    }
  }

  /** The number of labelled lines in a run. */
  function Labelled(slots: seq<Slot>): nat {
    if slots == [] then 0 else (if slots[0].speaker.Some? then 1 else 0) + Labelled(slots[1..])
  }

  lemma {:induction false} LabelledAppend(a: seq<Slot>, b: seq<Slot>)
    ensures Labelled(a + b) == Labelled(a) + Labelled(b)
    decreases |a|
  {
    if a == [] {
      assert a + b == b;
    } else {
      assert (a + b)[1..] == a[1..] + b;
      LabelledAppend(a[1..], b);
    }
  }

  /** A run of unlabelled lines carries no label. */
  lemma {:induction false} NoLabels(slots: seq<Slot>)
    requires forall k :: 0 <= k < |slots| ==> slots[k].speaker == None
    ensures Labelled(slots) == 0
    decreases |slots|
  {
    if slots != [] {
      NoLabels(slots[1..]);
    }
  }

  lemma EntryLabelledOnce(e: Entry, width: string -> nat, maxW: int)
    ensures Labelled(EntrySlots(e, width, maxW)) == 1
  {
  }

  /** Each entry contributes exactly one labelled line: its first. */
  lemma {:induction false} OneLabelPerEntry(msgs: seq<Entry>, width: string -> nat, maxW: int)
    ensures Labelled(Slots(msgs, width, maxW)) == |msgs|
    decreases |msgs|
  {
    if msgs != [] {
      EntryLabelledOnce(msgs[0], width, maxW);
      LabelledAppend(EntrySlots(msgs[0], width, maxW), Slots(msgs[1..], width, maxW));
      OneLabelPerEntry(msgs[1..], width, maxW);
    }
  }
}
