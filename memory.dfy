/**
 * The assistant's persistent memory (AI.py): a JSON document held in a
 * global, merged with its defaults when loaded, searched for learned
 * replies, extended with new ones, and updated with the detected mood.
 * Every operation keeps the effect Python gives it on documents of any
 * shape, including the exceptions it catches and leaves the memory alone.
 */
module Memory {
  import opened Wrappers
  import opened Text
  import opened Commands

  /** A JSON value as `json.load` returns it (numbers restricted to integers). */
  datatype Json =
    | JNull
    | JBool(b: bool)
    | JNum(n: int)
    | JStr(s: string)
    | JList(items: seq<Json>)
    | JObj(fields: map<string, Json>)

  /** Python truthiness of a JSON value (`if learned:`). */
  predicate Truthy(j: Json) {
    match j
    case JNull => false
    case JBool(b) => b
    case JNum(n) => n != 0
    case JStr(s) => s != []
    case JList(items) => items != []
    case JObj(fields) => fields != map[]
  }

  const PROFILE: string := "user_profile"
  const NOTES: string := "notes"
  const LEARNED: string := "learned_responses"
  const CONTEXT: string := "conversation_context"

  /** The top-level keys load_memory fills in when the file lacks them. */
  const TOP_KEYS: set<string> := {PROFILE, NOTES, LEARNED, CONTEXT}

  /** The memory the assistant starts with. */
  const DEFAULT_MEMORY: Json := JObj(map[
    PROFILE := JObj(map["name" := JNull, "nickname" := JNull]),
    NOTES := JList([]),
    LEARNED := JList([]),
    CONTEXT := JObj(map["last_topic" := JNull, "last_action" := JNull, "mood" := JStr("neutral")])
  ])

  /** `memory[key]` when memory is an object holding key; None where Python raises. */
  function Field(mem: Json, key: string): (r: Option<Json>)
    ensures r.Some? <==> mem.JObj? && key in mem.fields
  {
    if mem.JObj? && key in mem.fields then Some(mem.fields[key]) else None
  }

  // ---------------------------------------------------------------- load

  /** What reading the memory file gave. */
  datatype FileRead =
    | Missing           // the file does not exist (load_memory writes the defaults out instead)
    | Unreadable        // opening or decoding failed
    | Parsed(doc: Json) // json.load succeeded

  /** Every top-level key missing from the file can be taken from the current memory. */
  predicate Fillable(d: map<string, Json>, mem: Json) {
    forall k :: k in TOP_KEYS && k !in d ==> Field(mem, k).Some?
  }

  /** The file's object with each missing top-level key taken from the current memory. */
  function Merged(d: map<string, Json>, mem: Json): (r: map<string, Json>)
    requires Fillable(d, mem)
    ensures r.Keys == d.Keys + TOP_KEYS
  {
    map k | k in d.Keys + TOP_KEYS :: if k in d then d[k] else Field(mem, k).value
  }

  /**
   * The memory after load_memory. An object from the file is merged with the
   * current memory; a list or string whose `in` test finds every key is taken
   * as it is; everything else (a key that cannot be filled, a failing `in`,
   * an assignment into a list or string) raises, and the memory is unchanged.
   */
  function Loaded(mem: Json, file: FileRead): Json {
    match file
    case Missing => mem
    case Unreadable => mem
    case Parsed(doc) =>
      match doc
      case JObj(d) => if Fillable(d, mem) then JObj(Merged(d, mem)) else mem
      case JList(items) => if forall k :: k in TOP_KEYS ==> JStr(k) in items then doc else mem
      case JStr(s) => if forall k :: k in TOP_KEYS ==> Contains(s, k) then doc else mem
      case _ => mem
  }

  /** Loading over the defaults always completes an object: every default key is there, every stored value kept. */
  lemma LoadOverDefaults(d: map<string, Json>)
    ensures Loaded(DEFAULT_MEMORY, Parsed(JObj(d))).JObj?
    ensures Loaded(DEFAULT_MEMORY, Parsed(JObj(d))).fields.Keys == d.Keys + TOP_KEYS
    ensures forall k :: k in d ==> Loaded(DEFAULT_MEMORY, Parsed(JObj(d))).fields[k] == d[k]
    ensures forall k :: k in TOP_KEYS && k !in d ==>
      Loaded(DEFAULT_MEMORY, Parsed(JObj(d))).fields[k] == DEFAULT_MEMORY.fields[k]
  {
    assert Fillable(d, DEFAULT_MEMORY);
  }

  /** Loading the same file a second time changes nothing more. */
  lemma LoadTwice(mem: Json, file: FileRead)
    ensures Loaded(Loaded(mem, file), file) == Loaded(mem, file)
  {
    if file.Parsed? && file.doc.JObj? {
      var d := file.doc.fields;
      if Fillable(d, mem) {
        var m := Merged(d, mem);
        assert Fillable(d, JObj(m));
        assert Merged(d, JObj(m)) == m;
      }
    }
  }

  // ------------------------------------------------------- learned replies

  /** How a scan of the learned list ends. */
  datatype Scan =
    | Hit(response: Json)  // an entry's "query" equals the query; its "response" (None if absent)
    | NoHit                // the loop ran to the end
    | Broken               // an entry was not an object: `.get` raised

  /** The pair add_learned_response appends. */
  function Pair(query: string, response: string): Json {
    JObj(map["query" := JStr(query), "response" := JStr(response)])
  }

  /** Entry k is an object whose "query" is the query. */
  predicate MatchAt(items: seq<Json>, query: string, k: int) {
    0 <= k < |items| && items[k].JObj? && Field(items[k], "query") == Some(JStr(query))
  }

  /** `item.get("response")`: the stored response, None when absent. */
  function ResponseOf(item: Json): Json {
    match Field(item, "response") case Some(v) => v case None => JNull
  }

  /**
   * The loop of find_learned_response over a list of entries: the response
   * of the first entry whose query matches, provided every entry before it
   * is an object.
   */
  function ScanEntries(items: seq<Json>, query: string): (r: Scan)
    ensures r.Hit? ==>
      exists k :: (MatchAt(items, query, k) && r.response == ResponseOf(items[k])
                   && forall j :: 0 <= j < k ==> items[j].JObj? && !MatchAt(items, query, j))
    ensures r == NoHit <==> forall k :: 0 <= k < |items| ==>
      items[k].JObj? && Field(items[k], "query") != Some(JStr(query))
  {
    if items == [] then NoHit
    else if !items[0].JObj? then Broken
    else if Field(items[0], "query") == Some(JStr(query)) then
      assert MatchAt(items, query, 0);
      Hit(ResponseOf(items[0]))
    else
      var r := ScanEntries(items[1..], query);
      assert forall k :: 0 < k < |items| ==> items[k] == items[1..][k - 1];
      if r.Hit? then
        var k :| MatchAt(items[1..], query, k) && r.response == ResponseOf(items[1..][k])
          && forall j :: 0 <= j < k ==> items[1..][j].JObj? && !MatchAt(items[1..], query, j);
        MatchShift(items, query, k);
        r
      else r
  }

  /** A first match in the tail, behind an object that does not match, is the first match of the list. */
  lemma MatchShift(items: seq<Json>, query: string, k: int)
    requires items != [] && items[0].JObj? && !MatchAt(items, query, 0)
    requires MatchAt(items[1..], query, k)
    requires forall j :: 0 <= j < k ==> items[1..][j].JObj? && !MatchAt(items[1..], query, j)
    ensures MatchAt(items, query, k + 1) && items[k + 1] == items[1..][k]
    ensures forall j :: 0 <= j < k + 1 ==> items[j].JObj? && !MatchAt(items, query, j)
  {
    forall j | 0 < j < k + 1 ensures items[j].JObj? && !MatchAt(items, query, j) {
      assert items[j] == items[1..][j - 1];
    }
  }

  /** A matching entry with only objects before it is always found. */
  lemma {:induction false} PresentFound(items: seq<Json>, query: string, k: int)
    requires MatchAt(items, query, k)
    requires forall j :: 0 <= j < k ==> items[j].JObj?
    ensures ScanEntries(items, query).Hit?
    decreases k
  {
    if !MatchAt(items, query, 0) {
      assert items[0].JObj? && Field(items[0], "query") != Some(JStr(query));
      assert MatchAt(items[1..], query, k - 1) by {
        assert items[1..][k - 1] == items[k];
      }
      forall j | 0 <= j < k - 1 ensures items[1..][j].JObj? {
        assert items[1..][j] == items[j + 1];
      }
      PresentFound(items[1..], query, k - 1);
    }
  }

  /** An entry that is not an object, reached before any match, makes the scan raise. */
  lemma {:induction false} NonObjectBreaks(items: seq<Json>, query: string, k: int)
    requires 0 <= k < |items| && !items[k].JObj?
    requires forall j :: 0 <= j < k ==> items[j].JObj? && !MatchAt(items, query, j)
    ensures ScanEntries(items, query) == Broken
    decreases k
  {
    if k > 0 {
      assert items[0].JObj? && !MatchAt(items, query, 0);
      assert Field(items[0], "query") != Some(JStr(query));
      assert items[1..][k - 1] == items[k];
      forall j | 0 <= j < k - 1 ensures items[1..][j].JObj? && !MatchAt(items[1..], query, j) {
        assert items[1..][j] == items[j + 1];
        assert !MatchAt(items, query, j + 1);
      }
      NonObjectBreaks(items[1..], query, k - 1);
    }
  }

  /** `memory.get("learned_responses", [])`, iterated; iterating anything but a list yields nothing useful. */
  function LearnedScan(mem: Json, query: string): Scan {
    match mem
    case JObj(m) =>
      var lr := if LEARNED in m then m[LEARNED] else JList([]);
      (match lr
       case JList(items) => ScanEntries(items, query)
       case JStr(s) => if s == [] then NoHit else Broken
       case JObj(f) => if f == map[] then NoHit else Broken
       case _ => Broken)
    case _ => Broken
  }

  /** find_learned_response: the first matching entry's response, None otherwise or on error. */
  function LearnedResponse(mem: Json, query: string): Json {
    match LearnedScan(mem, query)
    case Hit(v) => v
    case _ => JNull
  }

  lemma {:induction false} ScanAppend(items: seq<Json>, x: Json, query: string)
    ensures ScanEntries(items + [x], query) ==
      if ScanEntries(items, query) == NoHit then ScanEntries([x], query) else ScanEntries(items, query)
    decreases |items|
  {
    if items == [] {
      assert items + [x] == [x];
    } else {
      assert (items + [x])[1..] == items[1..] + [x];
      ScanAppend(items[1..], x, query);
    }
  }

  /** The memory after add_learned_response: the pair is appended to the learned list, created if absent. */
  function Added(mem: Json, query: string, response: string): Json {
    match mem
    case JObj(m) =>
      if LEARNED !in m then JObj(m[LEARNED := JList([Pair(query, response)])])
      else if m[LEARNED].JList? then JObj(m[LEARNED := JList(m[LEARNED].items + [Pair(query, response)])])
      else mem
    case _ => mem
  }

  /** A reply learned for a query no earlier entry answers is found afterwards. */
  lemma AddThenFind(mem: Json, query: string, response: string)
    requires LearnedScan(mem, query) == NoHit
    requires Field(mem, LEARNED).Some? ==> Field(mem, LEARNED).value.JList?
    ensures LearnedResponse(Added(mem, query, response), query) == JStr(response)
  {
    var m := mem.fields;
    var p := Pair(query, response);
    assert ScanEntries([p], query) == Hit(JStr(response)) by {
      assert Field(p, "query") == Some(JStr(query));
      assert Field(p, "response") == Some(JStr(response));
    }
    if LEARNED in m {
      ScanAppend(m[LEARNED].items, p, query);
    }
  }

  /** A learned-list that is an empty string or object answers nothing and cannot be extended. */
  lemma AddToOddListIgnored(mem: Json, query: string, response: string)
    requires mem.JObj? && LEARNED in mem.fields
    requires mem.fields[LEARNED] == JStr("") || mem.fields[LEARNED] == JObj(map[])
    ensures LearnedScan(mem, query) == NoHit
    ensures Added(mem, query, response) == mem
  {
  }

  /** Teaching a query again does not replace the reply learned first. */
  lemma AddKeepsFirst(mem: Json, query: string, response: string)
    requires LearnedScan(mem, query).Hit?
    ensures LearnedResponse(Added(mem, query, response), query) == LearnedResponse(mem, query)
  {
    assert mem.JObj?;
    var m := mem.fields;
    if LEARNED in m && m[LEARNED].JList? {
      ScanAppend(m[LEARNED].items, Pair(query, response), query);
    }
  }

  /** Learning a reply for one query leaves the reply to every other query as it was. */
  lemma AddLeavesOthers(mem: Json, query: string, response: string, other: string)
    requires other != query
    ensures LearnedResponse(Added(mem, query, response), other) == LearnedResponse(mem, other)
  {
    if mem.JObj? {
      var m := mem.fields;
      var p := Pair(query, response);
      assert ScanEntries([p], other) == NoHit by {
        assert Field(p, "query") == Some(JStr(query));
        assert ScanEntries([p][1..], other) == NoHit;
      }
      if LEARNED in m && m[LEARNED].JList? {
        ScanAppend(m[LEARNED].items, p, other);
      }
    }
  }

  // ------------------------------------------------------------ the store

  /** The module-level `memory` global. */
  class Store {
    var data: Json

    constructor ()
      ensures data == DEFAULT_MEMORY
    {
      data := DEFAULT_MEMORY;
    }

    /** load_memory, given what reading the file produced. */
    method Load(file: FileRead)
      modifies this
      ensures data == Loaded(old(data), file)
    {
      if file.Parsed? {
        var doc := file.doc;
        match doc {
          case JObj(d) =>
            var merged := d;
            var ok := true;
            if PROFILE !in merged {
              var f := Field(data, PROFILE);
              if f.Some? { merged := merged[PROFILE := f.value]; } else { ok := false; }
            }
            if ok && NOTES !in merged {
              var f := Field(data, NOTES);
              if f.Some? { merged := merged[NOTES := f.value]; } else { ok := false; }
            }
            if ok && LEARNED !in merged {
              var f := Field(data, LEARNED);
              if f.Some? { merged := merged[LEARNED := f.value]; } else { ok := false; }
            }
            if ok && CONTEXT !in merged {
              var f := Field(data, CONTEXT);
              if f.Some? { merged := merged[CONTEXT := f.value]; } else { ok := false; }
            }
            if ok {
              assert Fillable(d, data);
              assert merged.Keys == Merged(d, data).Keys;
              assert merged == Merged(d, data);
              data := JObj(merged);
            } else {
              assert !Fillable(d, data);
            }
          case JList(items) =>
            if JStr(PROFILE) in items && JStr(NOTES) in items && JStr(LEARNED) in items && JStr(CONTEXT) in items {
              data := doc;
            }
          case JStr(s) =>
            if Contains(s, PROFILE) && Contains(s, NOTES) && Contains(s, LEARNED) && Contains(s, CONTEXT) {
              data := doc;
            }
          case _ =>
        }
      }
    }

    /** find_learned_response: scans the learned list and stops at the first matching entry. */
    method FindLearnedResponse(query: string) returns (r: Json)
      ensures r == LearnedResponse(data, query)
    {
      if !data.JObj? {
        return JNull;
      }
      var lr := if LEARNED in data.fields then data.fields[LEARNED] else JList([]);
      if !lr.JList? {
        return JNull;
      }
      var items := lr.items;
      var i := 0;
      while i < |items|
        invariant 0 <= i <= |items|
        invariant ScanEntries(items, query) == ScanEntries(items[i..], query)
      {
        assert items[i..][1..] == items[i + 1..];
        var item := items[i];
        if !item.JObj? {
          return JNull;
        }
        if Field(item, "query") == Some(JStr(query)) {
          return match Field(item, "response") case Some(v) => v case None => JNull;
        }
        i := i + 1;
      }
      return JNull;
    }

    /** add_learned_response: setdefault the learned list, then append the pair to it. */
    method AddLearnedResponse(query: string, response: string)
      modifies this
      ensures data == Added(old(data), query, response)
    {
      if data.JObj? {
        var m := data.fields;
        if LEARNED !in m {
          m := m[LEARNED := JList([])];
        }
        var lr := m[LEARNED];
        if lr.JList? {
          data := JObj(m[LEARNED := JList(lr.items + [Pair(query, response)])]);
          if LEARNED !in old(data).fields {
            assert lr.items + [Pair(query, response)] == [Pair(query, response)];
          }
        }
      }
    }

    /**
     * detect_mood: the first mood of the table with a keyword in the lowered
     * query, else neutral, stored as the conversation's mood. Main does not
     * catch the error a memory without a context object would raise.
     */
    method DetectMood(query: string) returns (mood: Mood)
      requires Field(data, CONTEXT).Some? && Field(data, CONTEXT).value.JObj?
      modifies this
      ensures mood == MoodOf(query)
      ensures data == JObj(old(data).fields[CONTEXT :=
        JObj(old(data).fields[CONTEXT].fields["mood" := JStr(mood.Name())])])
    {
      var q := Lower(query);
      var i := 0;
      mood := Neutral;
      while i < |MOOD_TABLE|
        invariant 0 <= i <= |MOOD_TABLE|
        invariant FirstMood(q, 0) == FirstMood(q, i)
      {
        if AnyIn(MOOD_TABLE[i].1, q) {
          mood := MOOD_TABLE[i].0;
          break;
        }
        i := i + 1;
      }
      var context := data.fields[CONTEXT];
      data := JObj(data.fields[CONTEXT := JObj(context.fields["mood" := JStr(mood.Name())])]);
    }

    /** The "my name is" and "call me" branches: `memory["user_profile"][key] = value`. */
    method SetProfile(key: string, value: string)
      requires Field(data, PROFILE).Some? && Field(data, PROFILE).value.JObj?
      modifies this
      ensures data == JObj(old(data).fields[PROFILE :=
        JObj(old(data).fields[PROFILE].fields[key := JStr(value)])])
    {
      var profile := data.fields[PROFILE];
      data := JObj(data.fields[PROFILE := JObj(profile.fields[key := JStr(value)])]);
    }
  }
}
