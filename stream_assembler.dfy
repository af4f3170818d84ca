/**
 * The stream assembler of the chat hook (src/hooks/use-baize-chat.ts): the
 * model's output arrives as fragments; text deltas are appended to one
 * accumulated string, tool-call fragments are stored in a record keyed by
 * call id, and after every fragment the last assistant turn of the
 * transcript is rebuilt from those two accumulators.
 */
module StreamAssembler {
  import opened Basics
  import opened JsStrings
  import opened Transcript
  import opened PropertyOrder

  /** One element of the model's `fullStream`. An absent field is the empty string. */
  datatype Fragment =
    | TextDelta(text: string, textDelta: string)
    | ToolCallFragment(toolCallId: string, toolCall: CallData)
    | OtherFragment(kind: string)   // step boundaries, finish markers and the like

  /**
   * `part.text || part.textDelta || ""`: the first non-empty of the two
   * fields. An absent field is already the empty string here, so the final
   * `|| ""` adds nothing.
   */
  function DeltaText(f: Fragment): (d: string)
    requires f.TextDelta?
    ensures f.text != "" ==> d == f.text
    ensures f.text == "" ==> d == f.textDelta
  {
    if f.text != "" then f.text else f.textDelta
  }

  /**
   * The key that assignment never creates on an object literal: storing
   * under it runs the `__proto__` setter inherited from Object.prototype,
   * which replaces the object's prototype and adds no own property.
   */
  const ProtoKey := "__proto__"

  /**
   * The `toolCalls` record: its entries, and `ids`, the order in which its
   * own keys were created.
   */
  datatype CallTable = CallTable(ids: seq<string>, entries: map<string, CallData>) {
    ghost predicate Valid() {
      && Distinct(ids)
      && (forall k :: k in entries <==> k in ids)
      && ProtoKey !in entries
    }

    /**
     * `toolCalls[id] = call`: a new id goes last, a known id keeps its place,
     * and `__proto__` stores nothing.
     */
    function Put(id: string, call: CallData): (t: CallTable)
      requires Valid()
      ensures t.Valid()
      ensures id == ProtoKey ==> t == this
      ensures id != ProtoKey ==> t.entries == entries[id := call]
      ensures id != ProtoKey ==> t.ids == if id in entries then ids else ids + [id]
    {
      if id == ProtoKey then this
      else if id in entries then CallTable(ids, entries[id := call])
      else CallTable(ids + [id], entries[id := call])
    }

    /** `Object.values(toolCalls)`: the entries in the object's key order. */
    function Values(): (vs: seq<CallData>)
      requires Valid()
      ensures |vs| == |ids| == |OwnKeys(ids)|
    {
      var order := OwnKeys(ids);
      OwnKeysMembers(ids);
      seq(|order|, i requires 0 <= i < |order| => entries[order[i]])
    }
  }

  const EmptyTable := CallTable([], map[])

  /** The i-th value is the entry under the i-th key of the enumeration order, and every entry is listed once. */
  lemma ValuesAt(t: CallTable)
    requires t.Valid()
    ensures |t.Values()| == |t.ids|
    ensures forall i :: 0 <= i < |t.ids| ==> OwnKeys(t.ids)[i] in t.entries && t.Values()[i] == t.entries[OwnKeys(t.ids)[i]]
    ensures forall id :: id in t.entries ==> exists i :: 0 <= i < |t.ids| && OwnKeys(t.ids)[i] == id
    ensures Distinct(OwnKeys(t.ids))
  {
    OwnKeysMembers(t.ids);
    OwnKeysDistinct(t.ids);
    forall id | id in t.entries ensures exists i :: 0 <= i < |t.ids| && OwnKeys(t.ids)[i] == id {
      assert id in OwnKeys(t.ids);
    }
  }

  /** Re-storing an id already seen keeps the number of calls and that id's position. */
  lemma OverwriteKeepsPosition(t: CallTable, id: string, call: CallData, pos: nat)
    requires t.Valid() && pos < |OwnKeys(t.ids)| && OwnKeys(t.ids)[pos] == id
    ensures |t.Put(id, call).Values()| == |t.Values()|
    ensures t.Put(id, call).Values()[pos] == call
    ensures forall i :: 0 <= i < |t.ids| && i != pos ==> t.Put(id, call).Values()[i] == t.Values()[i]
  {
    OwnKeysMembers(t.ids);
    assert id in t.entries;
    var order := OwnKeys(t.ids);
    OwnKeysDistinct(t.ids);
  }

  /** The two accumulators of the stream loop: `accumulatedText` and `toolCalls`. */
  datatype Assembly = Assembly(text: string, calls: CallTable)

  /** The effect of one fragment on the accumulators. */
  function Step(a: Assembly, f: Fragment): (b: Assembly)
    requires a.calls.Valid()
    ensures b.calls.Valid()
  {
    match f
    case TextDelta(_, _) => Assembly(a.text + DeltaText(f), a.calls)
    case ToolCallFragment(id, call) => Assembly(a.text, a.calls.Put(id, call))
    case OtherFragment(_) => a
  }

  /** The accumulators after the fragments `frags`, processed in arrival order. */
  function Fold(frags: seq<Fragment>): (a: Assembly)
    ensures a.calls.Valid()
  {
    if frags == [] then Assembly("", EmptyTable)
    else Step(Fold(frags[..|frags| - 1]), frags[|frags| - 1])
  }

  /** Folding one more fragment of a stream is one more `Step`. */
  lemma FoldPrefix(frags: seq<Fragment>, i: nat)
    requires i < |frags|
    ensures Fold(frags[..i + 1]) == Step(Fold(frags[..i]), frags[i])
  {
    assert frags[..i + 1][..i] == frags[..i];
  }

  /** One tool-call part per stored call, in enumeration order. */
  function CallParts(vs: seq<CallData>): (parts: seq<Part>)
    ensures |parts| == |vs|
  {
    seq(|vs|, i requires 0 <= i < |vs| => ToolCallPart(vs[i]))
  }

  /** The content the hook writes into the last assistant turn. */
  function BuildContent(text: string, calls: CallTable): (c: Content)
    requires calls.Valid()
    ensures c.Plain? <==> calls.ids == []
    ensures !c.Unstructured?
  {
    if |calls.ids| > 0 then
      var textParts := if text != "" then [TextPart(text)] else [];
      Parts(textParts + CallParts(calls.Values()))
    else Plain(text)
  }

  /**
   * While no tool call has been seen the content is the plain accumulated
   * string; afterwards it is a part list with a text part first (only if
   * the text is non-empty), then one tool-call part per entry, in the
   * order `Values` enumerates them.
   */
  lemma BuildContentShape(text: string, calls: CallTable)
    requires calls.Valid()
    ensures var c := BuildContent(text, calls);
      var head := if text != "" then 1 else 0;
      && (c.Plain? ==> c.text == text)
      && (c.Parts? ==>
            && |c.parts| == head + |calls.ids|
            && (text != "" ==> c.parts[0] == TextPart(text))
            && forall i :: 0 <= i < |calls.ids| ==> c.parts[head + i] == ToolCallPart(calls.Values()[i]))
  {
    if |calls.ids| > 0 {
      PartsShape(text, calls.Values());
    }
  }

  /** The part list built from a text and a sequence of call values. */
  lemma PartsShape(text: string, vs: seq<CallData>)
    ensures var head := if text != "" then 1 else 0;
      var parts := (if text != "" then [TextPart(text)] else []) + CallParts(vs);
      && |parts| == head + |vs|
      && (text != "" ==> parts[0] == TextPart(text))
      && forall i :: 0 <= i < |vs| ==> parts[head + i] == ToolCallPart(vs[i])
  {
  }

  function AssembledContent(frags: seq<Fragment>): (c: Content)
  {
    var a := Fold(frags);
    BuildContent(a.text, a.calls)
  }

  /**
   * The `setMessages` updater run after each fragment: when the last turn is
   * an assistant turn, its content is replaced; otherwise nothing changes.
   * The source reads the last element unconditionally, so the transcript
   * must not be empty.
   */
  function ReplaceLast(messages: seq<Turn>, content: Content): (r: seq<Turn>)
    requires messages != []
    ensures |r| == |messages|
    ensures r[..|r| - 1] == messages[..|messages| - 1]
    ensures messages[|messages| - 1].role == Assistant ==> r[|r| - 1] == Turn(Assistant, content)
    ensures messages[|messages| - 1].role != Assistant ==> r == messages
  {
    var last := messages[|messages| - 1];
    if last.role == Assistant then messages[..|messages| - 1] + [last.(content := content)]
    else messages
  }

  /** Only the latest replacement is visible: updating twice is updating once with the later content. */
  lemma ReplaceLastTwice(messages: seq<Turn>, c1: Content, c2: Content)
    requires messages != []
    ensures ReplaceLast(ReplaceLast(messages, c1), c2) == ReplaceLast(messages, c2)
  {
    var m1 := ReplaceLast(messages, c1);
    assert m1[..|m1| - 1] == messages[..|messages| - 1];
  }

  /**
   * The placeholder assistant turn, appended with empty content before the
   * first fragment, ends up holding exactly the assembled content.
   */
  lemma PlaceholderHoldsStream(prefix: seq<Turn>, frags: seq<Fragment>)
    ensures var withPlaceholder := prefix + [Turn(Assistant, Plain(""))];
      (if frags == [] then withPlaceholder else ReplaceLast(withPlaceholder, AssembledContent(frags)))
        == prefix + [Turn(Assistant, AssembledContent(frags))]
  {
    var withPlaceholder := prefix + [Turn(Assistant, Plain(""))];
    if frags != [] {
      assert withPlaceholder[..|withPlaceholder| - 1] == prefix;
    }
  }

  // ---------------------------------------------------------------------
  // Reference definitions, read front to back, independent of Fold.

  /** The text of every text-delta fragment, in arrival order. */
  function Deltas(frags: seq<Fragment>): (ds: seq<string>)
  {
    if frags == [] then []
    else (if frags[0].TextDelta? then [DeltaText(frags[0])] else []) + Deltas(frags[1..])
  }

  /** Whether a fragment is a tool call that the record stores: any id but `__proto__`. */
  predicate StoredCall(f: Fragment) {
    f.ToolCallFragment? && f.toolCallId != ProtoKey
  }

  /** The (id, call) pair of every stored tool-call fragment, in arrival order. */
  function CallsOf(frags: seq<Fragment>): (cs: seq<(string, CallData)>)
  {
    if frags == [] then []
    else (if StoredCall(frags[0]) then [(frags[0].toolCallId, frags[0].toolCall)] else []) + CallsOf(frags[1..])
  }

  function Concat(ss: seq<string>): (s: string)
  {
    if ss == [] then "" else ss[0] + Concat(ss[1..])
  }

  /** The call stored under `id` by the latest fragment carrying that id. */
  function LatestCall(cs: seq<(string, CallData)>, id: string): (o: Option<CallData>)
  {
    if cs == [] then None
    else match LatestCall(cs[1..], id)
      case Some(c) => Some(c)
      case None => if cs[0].0 == id then Some(cs[0].1) else None
  }

  /** `s` without every occurrence of `x`. */
  function Without(s: seq<string>, x: string): (r: seq<string>)
  {
    if s == [] then [] else (if s[0] == x then [] else [s[0]]) + Without(s[1..], x)
  }

  /** The distinct elements of `s`, each at the position of its first occurrence. */
  function FirstSeen(s: seq<string>): (r: seq<string>)
  {
    if s == [] then [] else [s[0]] + Without(FirstSeen(s[1..]), s[0])
  }

  function Lookup(m: map<string, CallData>, k: string): (o: Option<CallData>) {
    if k in m then Some(m[k]) else None
  }

  // ---------------------------------------------------------------------
  // Snoc lemmas for the reference definitions.

  lemma {:induction false} DeltasSnoc(frags: seq<Fragment>, f: Fragment)
    ensures Deltas(frags + [f]) == Deltas(frags) + (if f.TextDelta? then [DeltaText(f)] else [])
  {
    if frags != [] {
      assert (frags + [f])[1..] == frags[1..] + [f];
      DeltasSnoc(frags[1..], f);
    }
  }

  lemma {:induction false} CallsOfSnoc(frags: seq<Fragment>, f: Fragment)
    ensures CallsOf(frags + [f]) == CallsOf(frags) + (if StoredCall(f) then [(f.toolCallId, f.toolCall)] else [])
  {
    if frags != [] {
      assert (frags + [f])[1..] == frags[1..] + [f];
      CallsOfSnoc(frags[1..], f);
    }
  }

  lemma {:induction false} ConcatSnoc(ss: seq<string>, s: string)
    ensures Concat(ss + [s]) == Concat(ss) + s
  {
    if ss != [] {
      assert (ss + [s])[1..] == ss[1..] + [s];
      ConcatSnoc(ss[1..], s);
    }
  }

  lemma {:induction false} LatestCallSnoc(cs: seq<(string, CallData)>, c: (string, CallData), id: string)
    ensures LatestCall(cs + [c], id) == if c.0 == id then Some(c.1) else LatestCall(cs, id)
  {
    if cs == [] {
      assert LatestCall([c][1..], id) == None;
    } else {
      assert (cs + [c])[1..] == cs[1..] + [c];
      LatestCallSnoc(cs[1..], c, id);
    }
  }

  lemma {:induction false} WithoutAppend(s: seq<string>, t: seq<string>, x: string)
    ensures Without(s + t, x) == Without(s, x) + Without(t, x)
  {
    if s == [] {
      assert s + t == t;
    } else {
      var st := s + t;
      assert st[0] == s[0] && st[1..] == s[1..] + t;
      WithoutAppend(s[1..], t, x);
      var h := if s[0] == x then [] else [s[0]];
      calc {
        Without(st, x);
        h + Without(s[1..] + t, x);
        h + (Without(s[1..], x) + Without(t, x));
        (h + Without(s[1..], x)) + Without(t, x);
      }
    }
  }

  lemma {:induction false} WithoutMembers(s: seq<string>, x: string, y: string)
    ensures y in Without(s, x) <==> y in s && y != x
  {
    if s != [] {
      WithoutMembers(s[1..], x, y);
      assert s == [s[0]] + s[1..];
    }
  }

  lemma {:induction false} FirstSeenMembers(s: seq<string>, y: string)
    ensures y in FirstSeen(s) <==> y in s
  {
    if s != [] {
      FirstSeenMembers(s[1..], y);
      WithoutMembers(FirstSeen(s[1..]), s[0], y);
      assert s == [s[0]] + s[1..];
    }
  }

  lemma {:induction false} FirstSeenSnoc(s: seq<string>, x: string)
    ensures FirstSeen(s + [x]) == if x in s then FirstSeen(s) else FirstSeen(s) + [x]
  {
    if s == [] {
      assert FirstSeen([x]) == [x] + Without(FirstSeen([]), x);
    } else {
      var a, rest := s[0], s[1..];
      assert (s + [x])[1..] == rest + [x];
      assert s == [a] + rest;
      FirstSeenSnoc(rest, x);
      if x in rest {
        assert FirstSeen(s + [x]) == [a] + Without(FirstSeen(rest), a);
      } else {
        WithoutAppend(FirstSeen(rest), [x], a);
        assert Without([x], a) == (if x == a then [] else [x]) + Without([], a);
        if x == a {
          assert FirstSeen(s + [x]) == [a] + Without(FirstSeen(rest), a);
        }
      }
    }
  }

  // ---------------------------------------------------------------------
  // What the fold computes.

  /** The accumulated text is the concatenation of every delta's text, in arrival order. */
  lemma {:induction false} FoldText(frags: seq<Fragment>)
    ensures Fold(frags).text == Concat(Deltas(frags))
  {
    if frags != [] {
      var pre, f := frags[..|frags| - 1], frags[|frags| - 1];
      assert frags == pre + [f];
      FoldText(pre);
      DeltasSnoc(pre, f);
      if f.TextDelta? {
        ConcatSnoc(Deltas(pre), DeltaText(f));
      } else {
        assert Deltas(pre) + [] == Deltas(pre);
      }
    }
  }

  /**
   * The record holds, for every id, the call of the latest fragment with
   * that id, and its keys were created in order of first appearance.
   */
  lemma {:induction false} FoldCalls(frags: seq<Fragment>)
    ensures Fold(frags).calls.ids == FirstSeen(Firsts(CallsOf(frags)))
    ensures forall id :: Lookup(Fold(frags).calls.entries, id) == LatestCall(CallsOf(frags), id)
  {
    if frags != [] {
      var pre, f := frags[..|frags| - 1], frags[|frags| - 1];
      assert frags == pre + [f];
      FoldCalls(pre);
      CallsOfSnoc(pre, f);
      var cs := CallsOf(pre);
      assert Fold(frags) == Step(Fold(pre), f);
      if StoredCall(f) {
        var c := (f.toolCallId, f.toolCall);
        assert CallsOf(frags) == cs + [c];
        assert Firsts(cs + [c]) == Firsts(cs) + [c.0];
        FirstSeenSnoc(Firsts(cs), c.0);
        FirstSeenMembers(Firsts(cs), c.0);
        forall id ensures Lookup(Fold(frags).calls.entries, id) == LatestCall(cs + [c], id) {
          LatestCallSnoc(cs, c, id);
        }
      } else {
        assert cs + [] == cs;
      }
    }
  }

  /** With pairwise distinct ids, the calls keep exactly their arrival order. */
  lemma {:induction false} FirstSeenDistinct(s: seq<string>)
    requires Distinct(s)
    ensures FirstSeen(s) == s
  {
    if s != [] {
      var rest := s[1..];
      forall i, j | 0 <= i < j < |rest| ensures rest[i] != rest[j] {
        assert rest[i] == s[i + 1] && rest[j] == s[j + 1];
      }
      FirstSeenDistinct(rest);
      forall i | 0 <= i < |rest| ensures rest[i] != s[0] {
        assert rest[i] == s[i + 1];
      }
      WithoutAbsent(rest, s[0]);
      assert s == [s[0]] + rest;
    }
  }

  lemma {:induction false} WithoutAbsent(s: seq<string>, x: string)
    requires x !in s
    ensures Without(s, x) == s
  {
    if s != [] {
      WithoutAbsent(s[1..], x);
      assert s == [s[0]] + s[1..];
    }
  }

  /**
   * Without a stored tool call (no tool call at all, or only calls with id
   * `__proto__`), the assembled content is the plain string formed by the
   * deltas in arrival order; and with one, it is a list of parts.
   */
  lemma TextOnlyContent(frags: seq<Fragment>)
    ensures (forall i :: 0 <= i < |frags| ==> !StoredCall(frags[i])) ==>
      AssembledContent(frags) == Plain(Concat(Deltas(frags)))
    ensures (exists i :: 0 <= i < |frags| && StoredCall(frags[i])) ==> AssembledContent(frags).Parts?
  {
    FoldText(frags);
    FoldCalls(frags);
    if forall i :: 0 <= i < |frags| ==> !StoredCall(frags[i]) {
      NoCallsOf(frags);
    } else {
      var i :| 0 <= i < |frags| && StoredCall(frags[i]);
      StoredCallListed(frags, i);
      var cs := CallsOf(frags);
      FirstSeenMembers(Firsts(cs), cs[0].0);
      assert cs[0].0 in Fold(frags).calls.ids;
    }
  }

  lemma {:induction false} NoCallsOf(frags: seq<Fragment>)
    requires forall i :: 0 <= i < |frags| ==> !StoredCall(frags[i])
    ensures CallsOf(frags) == []
  {
    if frags != [] { NoCallsOf(frags[1..]); }
  }

  lemma {:induction false} StoredCallListed(frags: seq<Fragment>, i: nat)
    requires i < |frags| && StoredCall(frags[i])
    ensures CallsOf(frags) != []
  {
    if i > 0 { StoredCallListed(frags[1..], i - 1); }
  }

  /** A stream whose only tool call has id `__proto__` is shown as its text alone. */
  lemma ProtoCallShowsText()
    ensures AssembledContent([TextDelta("hi", ""), ToolCallFragment(ProtoKey, CallData("readPage", "{}"))])
      == Plain("hi")
  {
    var frags := [TextDelta("hi", ""), ToolCallFragment(ProtoKey, CallData("readPage", "{}"))];
    TextOnlyContent(frags);
    assert Deltas(frags) == ["hi"] by {
      assert Deltas(frags[1..]) == [] + Deltas(frags[1..][1..]);
    }
    assert Concat(["hi"]) == "hi" + Concat([]);
  }

  /**
   * With pairwise distinct call ids, none of them an array index, the
   * content lists the text (when non-empty) and then every call in arrival
   * order, wherever the deltas fall between the calls.
   */
  lemma DistinctCallsContent(frags: seq<Fragment>)
    requires CallsOf(frags) != [] && Distinct(Firsts(CallsOf(frags)))
    requires forall i :: 0 <= i < |CallsOf(frags)| ==> !IsArrayIndex(CallsOf(frags)[i].0)
    ensures var text := Concat(Deltas(frags));
      AssembledContent(frags) ==
        Parts((if text != "" then [TextPart(text)] else []) + CallParts(Seconds(CallsOf(frags))))
  {
    var cs, a := CallsOf(frags), Fold(frags);
    FoldText(frags);
    DistinctCallsStored(frags);
    NamesOnly(a.calls.ids);
    assert a.calls.Values() == Seconds(cs);
  }

  /**
   * Whatever the ids, the content lists the text (when non-empty) and then,
   * for each distinct stored id in the record's key order (array indices by number,
   * then the others by first appearance), the call of the latest fragment
   * carrying that id.
   */
  lemma AssembledCallOrder(frags: seq<Fragment>)
    requires CallsOf(frags) != []
    ensures var cs, text := CallsOf(frags), Concat(Deltas(frags));
      var order, head := OwnKeys(FirstSeen(Firsts(cs))), if text != "" then 1 else 0;
      var c := AssembledContent(frags);
      && c.Parts?
      && |c.parts| == head + |order|
      && (text != "" ==> c.parts[0] == TextPart(text))
      && forall i :: 0 <= i < |order| ==>
           LatestCall(cs, order[i]).Some? && c.parts[head + i] == ToolCallPart(LatestCall(cs, order[i]).value)
  {
    var cs, a := CallsOf(frags), Fold(frags);
    FoldText(frags);
    FoldCalls(frags);
    FirstSeenMembers(Firsts(cs), cs[0].0);
    assert cs[0].0 in a.calls.ids;
    TableContent(a.text, a.calls, cs);
  }

  /** The content built from a record whose entries are the latest calls of `cs`. */
  lemma TableContent(text: string, t: CallTable, cs: seq<(string, CallData)>)
    requires t.Valid() && t.ids != []
    requires forall id :: Lookup(t.entries, id) == LatestCall(cs, id)
    ensures var order, head := OwnKeys(t.ids), if text != "" then 1 else 0;
      var c := BuildContent(text, t);
      && c.Parts?
      && |c.parts| == head + |order|
      && (text != "" ==> c.parts[0] == TextPart(text))
      && forall i :: 0 <= i < |order| ==>
           LatestCall(cs, order[i]).Some? && c.parts[head + i] == ToolCallPart(LatestCall(cs, order[i]).value)
  {
    BuildContentShape(text, t);
    ValuesAt(t);
    var order := OwnKeys(t.ids);
    forall i | 0 <= i < |order|
      ensures LatestCall(cs, order[i]).Some? && t.Values()[i] == LatestCall(cs, order[i]).value
    {
      assert Lookup(t.entries, order[i]) == LatestCall(cs, order[i]);
    }
  }

  /** With distinct ids, the record's i-th id is the i-th call's id and stores that call. */
  lemma DistinctCallsStored(frags: seq<Fragment>)
    requires Distinct(Firsts(CallsOf(frags)))
    ensures var cs, calls := CallsOf(frags), Fold(frags).calls;
      && calls.ids == Firsts(cs)
      && forall i :: 0 <= i < |cs| ==> calls.entries[calls.ids[i]] == cs[i].1
  {
    var cs, calls := CallsOf(frags), Fold(frags).calls;
    FoldCalls(frags);
    FirstSeenDistinct(Firsts(cs));
    forall i | 0 <= i < |cs| ensures calls.entries[calls.ids[i]] == cs[i].1 {
      LatestOfDistinct(cs, i);
      assert Lookup(calls.entries, cs[i].0) == LatestCall(cs, cs[i].0);
    }
  }

  lemma {:induction false} LatestOfDistinct(cs: seq<(string, CallData)>, i: nat)
    requires i < |cs| && Distinct(Firsts(cs))
    ensures LatestCall(cs, cs[i].0) == Some(cs[i].1)
  {
    assert Firsts(cs[1..]) == Firsts(cs)[1..];
    if i == 0 {
      LatestAbsent(cs[1..], cs[0].0);
    } else {
      LatestOfDistinct(cs[1..], i - 1);
    }
  }

  lemma {:induction false} LatestAbsent(cs: seq<(string, CallData)>, id: string)
    requires id !in Firsts(cs)
    ensures LatestCall(cs, id) == None
  {
    if cs != [] {
      assert Firsts(cs[1..]) == Firsts(cs)[1..];
      LatestAbsent(cs[1..], id);
    }
  }

  /**
   * Only the subsequence of deltas and the subsequence of tool calls matter:
   * two streams that interleave them differently assemble the same content.
   */
  lemma InterleavingIrrelevant(f1: seq<Fragment>, f2: seq<Fragment>)
    requires Deltas(f1) == Deltas(f2) && CallsOf(f1) == CallsOf(f2)
    ensures AssembledContent(f1) == AssembledContent(f2)
  {
    FoldText(f1); FoldText(f2);
    FoldCalls(f1); FoldCalls(f2);
    var m1, m2 := Fold(f1).calls.entries, Fold(f2).calls.entries;
    forall id ensures (id in m1 <==> id in m2) && (id in m1 ==> m1[id] == m2[id]) {
      assert Lookup(m1, id) == Lookup(m2, id);
    }
    assert m1 == m2;
  }
}
