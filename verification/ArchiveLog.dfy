/** The context archive's log: rows on disk, and the state that replaying them rebuilds. */
module ArchiveLog {
  import opened Options
  import opened JsStrings
  import opened Sequences

  const MAX_CONTENT_CHARS: nat := 200_000
  const MAX_LABEL_CHARS: nat := 200

  datatype Kind = ToolCall | ToolResult | FileEdit | Terminal

  datatype Entry = Entry(
    id: JsString, ts: int, kind: Kind, caption: JsString, content: JsString, pruned: Option<bool>)

  datatype Usage = Usage(used: int, max: int, contextKnown: bool, ts: int)

  /** One line of the log; `Corrupt` is a line that does not parse. */
  datatype Row =
    | EntryRow(entry: Entry)
    | MarkRow(id: JsString, pruned: bool)
    | UsageRow(usage: Usage)
    | Corrupt

  /** In memory: `byId` gives the position in `entries`, the two sharing each entry. */
  datatype State = State(
    entries: seq<Entry>, byId: map<JsString, nat>, counter: nat, lastUsage: Option<Usage>)

  const EMPTY: State := State([], map[], 0, None)
  const ID_PREFIX: JsString := Lit("cx_")

  function MakeId(n: nat): JsString {
    ID_PREFIX + PrintDecimal(n)
  }

  /** `Number(id.replace(/^cx_/, ''))` on the numerals the service itself writes. */
  function NumberOf(id: JsString): Option<nat> {
    var digits := if ID_PREFIX <= id then id[|ID_PREFIX|..] else id;
    if AllDigits(digits) then Some(ParseDecimal(digits)) else None
  }

  lemma NumberOfMakeId(n: nat)
    ensures NumberOf(MakeId(n)) == Some(n) && MakeId(n) != []
    ensures NumberOf(Lit("cx_")) == Some(0)
  {
    assert Lit("cx_")[3..] == [];
    assert MakeId(n)[|ID_PREFIX|..] == PrintDecimal(n);
    ParsePrint(n);
  }

  function AddEntry(s: State, e: Entry): State {
    s.(entries := s.entries + [e], byId := s.byId[e.id := |s.entries|])
  }

  function Mark(s: State, id: JsString, pruned: bool): State {
    if id in s.byId && s.byId[id] < |s.entries| then
      s.(entries := s.entries[s.byId[id] := s.entries[s.byId[id]].(pruned := Some(pruned))])
    else s
  }

  /** One line of the load loop. */
  function ReplayRow(s: State, row: Row): State {
    match row
    case Corrupt => s
    case MarkRow(id, pruned) => Mark(s, id, pruned)
    case UsageRow(usage) => s.(lastUsage := Some(usage))
    case EntryRow(e) =>
      if e.id == [] then s else
        var t, n := AddEntry(s, e), NumberOf(e.id);
        if n.Some? && n.value >= s.counter then t.(counter := n.value + 1) else t
  }

  function Replay(log: seq<Row>): State {
    if log == [] then EMPTY else ReplayRow(Replay(log[..|log| - 1]), log[|log| - 1])
  }

  /** What a line does on loading: one that does not parse, an entry without an id and a mark of an
      unknown entry nothing; a usage replaces the last one; an entry is added, found under its id from
      then on, and pushes the counter past its number. */
  lemma ReplayRowIs(s: State, e: Entry, id: JsString, pruned: bool, usage: Usage)
    ensures ReplayRow(s, Corrupt) == s
    ensures ReplayRow(s, UsageRow(usage)) == State(s.entries, s.byId, s.counter, Some(usage))
    ensures id !in s.byId ==> ReplayRow(s, MarkRow(id, pruned)) == s
    ensures id in s.byId && s.byId[id] < |s.entries| ==>
              var k, t := s.byId[id], ReplayRow(s, MarkRow(id, pruned));
              && |t.entries| == |s.entries| && t.entries[k] == s.entries[k].(pruned := Some(pruned))
              && (forall j :: 0 <= j < |s.entries| && j != k ==> t.entries[j] == s.entries[j])
              && t == s.(entries := t.entries)
    ensures e.id == [] ==> ReplayRow(s, EntryRow(e)) == s
    ensures e.id != [] ==>
              var t := ReplayRow(s, EntryRow(e));
              && t.entries == s.entries + [e] && t.byId == s.byId[e.id := |s.entries|] && t.lastUsage == s.lastUsage
              && t.counter == if NumberOf(e.id).Some? && NumberOf(e.id).value >= s.counter
                              then NumberOf(e.id).value + 1 else s.counter
  {
    hide NumberOf;
  }

  lemma ReplaySnoc(log: seq<Row>, row: Row)
    ensures Replay(log + [row]) == ReplayRow(Replay(log), row)
  {
    assert (log + [row])[..|log|] == log;
  }

  /** The number in the id of an entry. */
  function Num(e: Entry): nat {
    var n := NumberOf(e.id);
    if n.Some? then n.value else 0
  }

  /** The entries are in the order of their ids, each is found under its id, and the next id is the
      one after the last. Numbers may be missing, as rows may have been lost. */
  ghost predicate Ordered(s: State) {
    && (forall k :: 0 <= k < |s.entries| ==>
          s.entries[k].id == MakeId(Num(s.entries[k])) && s.entries[k].id in s.byId && s.byId[s.entries[k].id] == k)
    && (forall j, k :: 0 <= j < k < |s.entries| ==> Num(s.entries[j]) < Num(s.entries[k]))
    && (forall id :: id in s.byId ==> s.byId[id] < |s.entries| && s.entries[s.byId[id]].id == id)
    && s.counter == if s.entries == [] then 0 else Num(s.entries[|s.entries| - 1]) + 1
  }

  /** No number is missing: the `k`-th entry is `cx_k`. */
  ghost predicate Numbered(s: State) {
    && Ordered(s)
    && s.counter == |s.entries|
    && forall k :: 0 <= k < |s.entries| ==> s.entries[k].id == MakeId(k)
  }

  function NewEntry(s: State, ts: int, kind: Kind, caption: JsString, content: JsString): Entry {
    Entry(MakeId(s.counter), ts, kind, SliceTo(caption, MAX_LABEL_CHARS), SliceTo(content, MAX_CONTENT_CHARS), None)
  }

  lemma NumOf(e: Entry, n: nat)
    requires e.id == MakeId(n)
    ensures Num(e) == n && NumberOf(e.id) == Some(n) && e.id != []
  {
    NumberOfMakeId(n);
  }

  lemma NumsAreBelow(s: State, k: nat)
    requires Ordered(s) && k < |s.entries|
    ensures Num(s.entries[k]) < s.counter
  {
    hide MakeId, Num;
    if k < |s.entries| - 1 {
      assert Num(s.entries[k]) < Num(s.entries[|s.entries| - 1]);
    }
  }

  lemma NewIdIsNew(s: State, e: Entry, n: nat)
    requires Ordered(s) && n >= s.counter && e.id == MakeId(n)
    ensures e.id !in s.byId
  {
    NumOf(e, n);
    if e.id in s.byId {
      var k := s.byId[e.id];
      SameNum(s.entries[k], e);
      NumsAreBelow(s, k);
    }
  }

  lemma SameNum(d: Entry, e: Entry)
    requires d.id == e.id
    ensures Num(d) == Num(e)
  {
  }

  lemma ReplayedRow(s: State, e: Entry, n: nat)
    requires n >= s.counter && e.id == MakeId(n)
    ensures ReplayRow(s, EntryRow(e)) == AddEntry(s, e).(counter := n + 1)
  {
    NumOf(e, n);
    hide MakeId, NumberOf;
  }

  lemma AddKeepsOrder(s: State, e: Entry, n: nat)
    requires Ordered(s) && e.id !in s.byId && e.id == MakeId(n) && Num(e) == n
    requires forall k :: 0 <= k < |s.entries| ==> Num(s.entries[k]) < n
    ensures var t := AddEntry(s, e).(counter := n + 1);
            Ordered(t) && (Numbered(s) && n == s.counter ==> Numbered(t))
  {
    hide MakeId, Num;
    var t := AddEntry(s, e).(counter := n + 1);
    assert t.entries[|s.entries|] == e;
    assert forall k :: 0 <= k < |s.entries| ==> t.entries[k] == s.entries[k];
  }

  /** A row with a number not used yet adds its entry, under a new id. */
  lemma AddedRow(s: State, e: Entry, n: nat)
    requires Ordered(s) && n >= s.counter && e.id == MakeId(n)
    ensures e.id !in s.byId
    ensures var t := AddEntry(s, e).(counter := n + 1);
            ReplayRow(s, EntryRow(e)) == t && Ordered(t) && (Numbered(s) && n == s.counter ==> Numbered(t))
  {
    hide MakeId, NumberOf, Num, Ordered, Numbered, ReplayRow;
    NumOf(e, n);
    NewIdIsNew(s, e, n);
    ReplayedRow(s, e, n);
    forall k | 0 <= k < |s.entries| ensures Num(s.entries[k]) < n {
      NumsAreBelow(s, k);
    }
    AddKeepsOrder(s, e, n);
  }

  lemma MarkKeepsOrder(s: State, id: JsString, pruned: bool)
    requires Ordered(s)
    ensures Ordered(Mark(s, id, pruned)) && (Numbered(s) ==> Numbered(Mark(s, id, pruned)))
  {
    hide MakeId, Num;
    if id in s.byId {
      var t := Mark(s, id, pruned);
      forall j | 0 <= j < |s.entries|
        ensures t.entries[j].id == s.entries[j].id && Num(t.entries[j]) == Num(s.entries[j])
      {
        SameNum(t.entries[j], s.entries[j]);
      }
    }
  }

  /** The entry carries that mark already. */
  predicate Marked(s: State, id: JsString, pruned: bool) {
    id in s.byId && s.byId[id] < |s.entries| && s.entries[s.byId[id]].pruned == Some(pruned)
  }

  lemma MarkChangesNothingIff(s: State, id: JsString, pruned: bool)
    requires Ordered(s)
    ensures Mark(s, id, pruned) == s <==> id !in s.byId || Marked(s, id, pruned)
  {
    hide MakeId, Num;
    if id in s.byId {
      var k := s.byId[id];
      var e := s.entries[k];
      assert Mark(s, id, pruned).entries[k] == e.(pruned := Some(pruned));
      if e.pruned == Some(pruned) {
        assert e == e.(pruned := Some(pruned));
        assert s.entries[k := e] == s.entries;
      }
    }
  }

  // -- Memory against the log ------------------------------------------------

  predicate SameButMark(a: Entry, b: Entry) {
    a.(pruned := b.pruned) == b
  }

  /** The entry is there, its prune mark aside. */
  predicate Present(s: State, e: Entry) {
    e.id in s.byId && s.byId[e.id] < |s.entries| && SameButMark(s.entries[s.byId[e.id]], e)
  }

  /** Memory has every entry that replaying the log gives, and gives no number the log has. */
  ghost predicate Holds(m: State, r: State) {
    r.counter <= m.counter && forall k :: 0 <= k < |r.entries| ==> Present(m, r.entries[k])
  }

  lemma PresentAfterAdd(s: State, e: Entry, other: Entry, n: nat)
    requires Present(s, other) && e.id !in s.byId
    ensures Present(AddEntry(s, e).(counter := n), other)
  {
  }

  lemma PresentAfterMark(s: State, e: Entry, id: JsString, pruned: bool)
    requires Present(s, e)
    ensures Present(Mark(s, id, pruned), e)
  {
  }

  // -- Search ----------------------------------------------------------------

  predicate OccursAt(s: JsString, q: JsString, i: nat) {
    i + |q| <= |s| && s[i..i + |q|] == q
  }

  predicate Includes(s: JsString, q: JsString) {
    exists i :: 0 <= i <= |s| && OccursAt(s, q, i)
  }

  lemma IncludesIff(s: JsString, q: JsString)
    ensures Includes(s, q) <==> exists a: JsString, b: JsString :: s == a + q + b
  {
    if i :| 0 <= i <= |s| && OccursAt(s, q, i) {
      assert s == s[..i] + q + s[i + |q|..];
    }
    if a: JsString, b: JsString :| s == a + q + b {
      assert s[|a|..|a| + |q|] == q;
      assert OccursAt(s, q, |a|);
    }
  }

  predicate Hit(lower: JsString -> JsString, e: Entry, query: JsString) {
    Includes(lower(e.caption), lower(query)) || Includes(lower(e.content), lower(query))
  }

  /** All matching entries, newest first. */
  function NewestHits(lower: JsString -> JsString, entries: seq<Entry>, query: JsString): seq<Entry> {
    if entries == [] then [] else
      var last := entries[|entries| - 1];
      (if Hit(lower, last, query) then [last] else []) + NewestHits(lower, entries[..|entries| - 1], query)
  }

  function FirstOf(es: seq<Entry>, limit: int): seq<Entry> {
    if limit <= 0 then [] else if |es| <= limit then es else es[..limit]
  }

  lemma {:induction false} NewestHitsAppend(lower: JsString -> JsString, a: seq<Entry>, b: seq<Entry>, query: JsString)
    ensures NewestHits(lower, a + b, query) == NewestHits(lower, b, query) + NewestHits(lower, a, query)
  {
    hide Hit;
    if b == [] {
      assert a + b == a;
    } else {
      assert (a + b)[..|a + b| - 1] == a + b[..|b| - 1];
      NewestHitsAppend(lower, a, b[..|b| - 1], query);
      var last := b[|b| - 1];
      var newest := if Hit(lower, last, query) then [last] else [];
      assert NewestHits(lower, a + b, query) == newest + NewestHits(lower, a + b[..|b| - 1], query);
      assert NewestHits(lower, b, query) == newest + NewestHits(lower, b[..|b| - 1], query);
      hide *;
      Regroup(newest, NewestHits(lower, b[..|b| - 1], query), NewestHits(lower, a, query));
    }
  }

  /** A search finds, the newest first (`NewestHitsAppend`), each entry whose caption or content holds the
      query, upper and lower case aside; and of those as many as the limit allows. */
  lemma SearchFinds(lower: JsString -> JsString, e: Entry, query: JsString, es: seq<Entry>, limit: int)
    ensures NewestHits(lower, [e], query) ==
            if (exists a: JsString, b: JsString :: lower(e.caption) == a + lower(query) + b) ||
               (exists a: JsString, b: JsString :: lower(e.content) == a + lower(query) + b) then [e] else []
    ensures FirstOf(es, limit) <= es
    ensures |FirstOf(es, limit)| == if limit < 0 then 0 else if limit < |es| then limit else |es|
  {
    IncludesIff(lower(e.caption), lower(query));
    IncludesIff(lower(e.content), lower(query));
    hide Includes;
    assert [e][..0] == [];
  }
}
