/**
 * The chat panel (src/components/Chat.tsx): how a turn is read aloud and
 * drawn, and the composer around the chat hook — the attachment list, the
 * keyboard handlers, the single-line/multi-line switch and the playback
 * button.
 *
 * Layout measurement, scrolling, focus, the speech service and `alert` are
 * outside the model: whether the text overflows the field and whether
 * speech fails are parameters, and the speech requests and alerts are logs.
 */
module ChatView {
  import opened Basics
  import opened JsStrings
  import opened Transcript
  import opened StreamAssembler
  import opened ChatHook

  // ---------------------------------------------------------------------
  // Reading a turn aloud: `extractTextFromMessage`

  /** The `text` of every text part, in order. */
  function TextsOf(parts: seq<Part>): (texts: seq<string>)
    ensures |texts| <= |parts|
  {
    if parts == [] then []
    else (if parts[0].TextPart? then [parts[0].text] else []) + TextsOf(parts[1..])
  }

  /** The string handed to the speech service for a turn. */
  function ExtractText(msg: Turn): (text: string) {
    match msg.content
    case Plain(text) => text
    case Parts(parts) => Join(TextsOf(parts), " ")
    case Unstructured => ""
  }

  lemma {:induction false} TextsOfAppend(a: seq<Part>, b: seq<Part>)
    ensures TextsOf(a + b) == TextsOf(a) + TextsOf(b)
  {
    if a == [] {
      assert a + b == b;
    } else {
      assert (a + b)[0] == a[0];
      assert (a + b)[1..] == a[1..] + b;
      TextsOfAppend(a[1..], b);
    }
  }

  lemma {:induction false} NoTexts(parts: seq<Part>)
    requires forall i :: 0 <= i < |parts| ==> !parts[i].TextPart?
    ensures TextsOf(parts) == []
  {
    if parts != [] {
      NoTexts(parts[1..]);
    }
  }

  lemma {:induction false} JoinSnoc(items: seq<string>, x: string, sep: string)
    ensures Join(items + [x], sep) == if items == [] then x else Join(items, sep) + sep + x
  {
    if |items| == 1 {
      assert items + [x] == [items[0], x];
    } else if |items| > 1 {
      assert (items + [x])[1..] == items[1..] + [x];
      JoinSnoc(items[1..], x, sep);
    }
  }

  /** Parts that are not text parts contribute nothing to what is read aloud. */
  lemma ExtractIgnoresOtherParts(role: Role, before: seq<Part>, p: Part, after: seq<Part>)
    requires !p.TextPart?
    ensures ExtractText(Turn(role, Parts(before + [p] + after))) == ExtractText(Turn(role, Parts(before + after)))
  {
    TextsOfAppend(before + [p], after);
    TextsOfAppend(before, [p]);
    TextsOfAppend(before, after);
    assert TextsOf([p]) == [] + TextsOf([p][1..]);
    assert TextsOf(before) + [] == TextsOf(before);
  }

  /** One more text part is read after the earlier ones, separated by one space. */
  lemma ExtractAppendsText(role: Role, before: seq<Part>, text: string)
    ensures ExtractText(Turn(role, Parts(before + [TextPart(text)]))) ==
      if TextsOf(before) == [] then text else ExtractText(Turn(role, Parts(before))) + " " + text
  {
    TextsOfAppend(before, [TextPart(text)]);
    assert TextsOf([TextPart(text)]) == [text];
    JoinSnoc(TextsOf(before), text, " ");
  }

  /** Playing back an assembled assistant turn reads exactly the streamed text, never the tool calls. */
  lemma ExtractAssembled(text: string, calls: CallTable)
    requires calls.Valid()
    ensures ExtractText(Turn(Assistant, BuildContent(text, calls))) == text
  {
    if calls.ids != [] {
      var hs: seq<Part> := if text != "" then [TextPart(text)] else [];
      var cps := CallParts(calls.Values());
      TextsOfAppend(hs, cps);
      NoTexts(cps);
      if text != "" {
        assert TextsOf(hs) == [text] + TextsOf([]);
      }
    }
  }

  /** Playing back a user turn reads the typed text when it was kept, and nothing otherwise. */
  lemma ExtractUserTurn(input: string, attachments: seq<File>, encode: File -> string)
    ensures ExtractText(UserTurn(input, attachments, encode)) == if Trim(input) != "" then input else ""
  {
    var hs: seq<Part> := if Trim(input) != "" then [TextPart(input)] else [];
    var ims := ImageParts(attachments, encode);
    TextsOfAppend(hs, ims);
    NoTexts(ims);
    if Trim(input) != "" {
      assert TextsOf(hs) == [input] + TextsOf([]);
    }
  }

  // ---------------------------------------------------------------------
  // Drawing a turn: `renderMessageContent`

  datatype Block =
    | ToolCallBlock(call: CallData)  // collapsible tool name with its arguments
    | ImageBlock(src: string)
    | TextBlock(markdown: string)

  datatype Rendered = Blank | Markdown(text: string) | Stack(blocks: seq<Block>)

  predicate Renderable(p: Part) {
    p.TextPart? || p.ImagePart?
  }

  predicate AnyRenderable(parts: seq<Part>) {
    exists i :: 0 <= i < |parts| && Renderable(parts[i])
  }

  /** One block per tool-call part, in order. */
  function ToolCallBlocks(parts: seq<Part>): (blocks: seq<Block>)
    ensures |blocks| <= |parts|
  {
    if parts == [] then []
    else (if parts[0].ToolCallPart? then [ToolCallBlock(parts[0].call)] else []) + ToolCallBlocks(parts[1..])
  }

  /** Every block is a tool-call block, and there is none exactly when no part is a tool call. */
  lemma {:induction false} ToolCallBlocksFacts(parts: seq<Part>)
    ensures forall b :: b in ToolCallBlocks(parts) ==> b.ToolCallBlock?
    ensures ToolCallBlocks(parts) == [] <==> forall i :: 0 <= i < |parts| ==> !parts[i].ToolCallPart?
  {
    if parts != [] {
      ToolCallBlocksFacts(parts[1..]);
      assert forall i :: 1 <= i < |parts| ==> parts[i] == parts[1..][i - 1];
    }
  }

  /** The parts that are not tool calls, in order. */
  function OtherParts(parts: seq<Part>): (others: seq<Part>)
    ensures |others| <= |parts|
  {
    if parts == [] then []
    else (if parts[0].ToolCallPart? then [] else [parts[0]]) + OtherParts(parts[1..])
  }

  /** A part is kept exactly when it occurs in the input and is not a tool call. */
  lemma {:induction false} OtherPartsMembers(parts: seq<Part>)
    ensures forall p :: p in OtherParts(parts) <==> p in parts && !p.ToolCallPart?
  {
    if parts != [] {
      OtherPartsMembers(parts[1..]);
      assert parts == [parts[0]] + parts[1..];
    }
  }

  /** The blocks drawn for the non-tool-call parts: tool results and unknown parts draw nothing. */
  function OtherBlocks(others: seq<Part>): (blocks: seq<Block>)
    ensures |blocks| <= |others|
  {
    if others == [] then []
    else
      var p := others[0];
      (match p
       case ImagePart(image) => [ImageBlock(image)]
       case TextPart(text) => [TextBlock(text)]
       case _ => [])
      + OtherBlocks(others[1..])
  }

  /** None of these blocks is a tool-call block. */
  lemma {:induction false} OtherBlocksFacts(others: seq<Part>)
    ensures forall b :: b in OtherBlocks(others) ==> !b.ToolCallBlock?
  {
    if others != [] {
      OtherBlocksFacts(others[1..]);
    }
  }

  function Render(msg: Turn): (r: Rendered) {
    match msg.content
    case Plain(text) => Markdown(text)
    case Parts(parts) =>
      var calls := ToolCallBlocks(parts);
      var others := OtherParts(parts);
      if |calls| == 0 && !AnyRenderable(others) then Blank
      else Stack(calls + OtherBlocks(others))
    case Unstructured => Blank
  }

  /** A list of parts draws nothing exactly when it holds no tool call, text or image. */
  lemma RenderBlankIff(role: Role, parts: seq<Part>)
    ensures Render(Turn(role, Parts(parts))) == Blank <==>
      forall i :: 0 <= i < |parts| ==> !parts[i].ToolCallPart? && !Renderable(parts[i])
  {
    var others := OtherParts(parts);
    OtherPartsMembers(parts);
    ToolCallBlocksFacts(parts);
    if AnyRenderable(parts) {
      var i :| 0 <= i < |parts| && Renderable(parts[i]);
      assert parts[i] in others;
      var k :| 0 <= k < |others| && others[k] == parts[i];
      assert Renderable(others[k]);
    }
    if AnyRenderable(others) {
      var k :| 0 <= k < |others| && Renderable(others[k]);
      assert others[k] in parts;
      var i :| 0 <= i < |parts| && parts[i] == others[k];
      assert Renderable(parts[i]);
    }
  }

  /** Tool calls are always drawn above everything else in the bubble. */
  lemma RenderCallsFirst(msg: Turn)
    ensures Render(msg).Stack? ==>
      var bs := Render(msg).blocks;
      forall i, j :: 0 <= i < j < |bs| && bs[j].ToolCallBlock? ==> bs[i].ToolCallBlock?
  {
    if Render(msg).Stack? {
      var calls := ToolCallBlocks(msg.content.parts);
      var rest := OtherBlocks(OtherParts(msg.content.parts));
      var bs := Render(msg).blocks;
      ToolCallBlocksFacts(msg.content.parts);
      OtherBlocksFacts(OtherParts(msg.content.parts));
      assert bs == calls + rest;
      forall j | |calls| <= j < |bs| ensures !bs[j].ToolCallBlock? {
        assert bs[j] == rest[j - |calls|];
        assert rest[j - |calls|] in rest;
      }
      forall i | 0 <= i < |calls| ensures bs[i].ToolCallBlock? {
        assert bs[i] == calls[i];
        assert calls[i] in calls;
      }
    }
  }

  lemma {:induction false} ToolCallBlocksAppend(a: seq<Part>, b: seq<Part>)
    ensures ToolCallBlocks(a + b) == ToolCallBlocks(a) + ToolCallBlocks(b)
  {
    if a == [] {
      assert a + b == b;
    } else {
      assert (a + b)[0] == a[0];
      assert (a + b)[1..] == a[1..] + b;
      ToolCallBlocksAppend(a[1..], b);
    }
  }

  lemma {:induction false} OtherPartsAppend(a: seq<Part>, b: seq<Part>)
    ensures OtherParts(a + b) == OtherParts(a) + OtherParts(b)
  {
    if a == [] {
      assert a + b == b;
    } else {
      assert (a + b)[0] == a[0];
      assert (a + b)[1..] == a[1..] + b;
      OtherPartsAppend(a[1..], b);
    }
  }

  lemma {:induction false} OtherBlocksAppend(a: seq<Part>, b: seq<Part>)
    ensures OtherBlocks(a + b) == OtherBlocks(a) + OtherBlocks(b)
  {
    if a == [] {
      assert a + b == b;
    } else {
      assert (a + b)[0] == a[0];
      assert (a + b)[1..] == a[1..] + b;
      OtherBlocksAppend(a[1..], b);
    }
  }

  lemma SkipNonRenderable(a: seq<Part>, p: Part, b: seq<Part>)
    requires !Renderable(p)
    ensures AnyRenderable(a + [p] + b) <==> AnyRenderable(a + b)
  {
    var with, without := a + [p] + b, a + b;
    if AnyRenderable(with) {
      var i :| 0 <= i < |with| && Renderable(with[i]);
      if i < |a| {
        assert without[i] == with[i];
      } else {
        assert without[i - 1] == with[i];
      }
    }
    if AnyRenderable(without) {
      var i :| 0 <= i < |without| && Renderable(without[i]);
      if i < |a| {
        assert with[i] == without[i];
      } else {
        assert with[i + 1] == without[i];
      }
    }
  }

  lemma SkipInCalls(a: seq<Part>, p: Part, b: seq<Part>)
    requires !p.ToolCallPart?
    ensures ToolCallBlocks(a + [p] + b) == ToolCallBlocks(a + b)
  {
    ToolCallBlocksAppend(a + [p], b);
    ToolCallBlocksAppend(a, [p]);
    ToolCallBlocksAppend(a, b);
    assert ToolCallBlocks([p]) == [] + ToolCallBlocks([]);
    assert ToolCallBlocks(a) + [] == ToolCallBlocks(a);
  }

  lemma SkipInOthers(a: seq<Part>, p: Part, b: seq<Part>)
    requires !p.ToolCallPart?
    ensures OtherParts(a + [p] + b) == OtherParts(a) + [p] + OtherParts(b)
  {
    assert a + [p] + b == a + ([p] + b);
    OtherPartsAppend(a, [p] + b);
    assert ([p] + b)[1..] == b;
  }

  lemma SkipInBlocks(oa: seq<Part>, p: Part, ob: seq<Part>)
    requires !Renderable(p)
    ensures OtherBlocks(oa + [p] + ob) == OtherBlocks(oa + ob)
  {
    OtherBlocksAppend(oa + [p], ob);
    OtherBlocksAppend(oa, [p]);
    OtherBlocksAppend(oa, ob);
    assert OtherBlocks([p]) == [] + OtherBlocks([]);
    assert OtherBlocks(oa) + [] == OtherBlocks(oa);
  }

  /** A tool result, or a part of a kind the view does not know, changes nothing that is drawn. */
  lemma RenderSkipsResults(role: Role, before: seq<Part>, p: Part, after: seq<Part>)
    requires p.ToolResultPart? || p.OtherPart?
    ensures Render(Turn(role, Parts(before + [p] + after))) == Render(Turn(role, Parts(before + after)))
  {
    SkipInCalls(before, p, after);
    SkipInOthers(before, p, after);
    OtherPartsAppend(before, after);
    SkipInBlocks(OtherParts(before), p, OtherParts(after));
    SkipNonRenderable(OtherParts(before), p, OtherParts(after));
  }

  lemma {:induction false} AllToolCalls(parts: seq<Part>)
    requires forall i :: 0 <= i < |parts| ==> parts[i].ToolCallPart?
    ensures ToolCallBlocks(parts) == seq(|parts|, i requires 0 <= i < |parts| => ToolCallBlock(parts[i].call))
    ensures OtherParts(parts) == []
  {
    if parts != [] {
      AllToolCalls(parts[1..]);
    }
  }

  /**
   * An assembled assistant turn with tool calls is drawn as one block per
   * call in the record's enumeration order, followed by the streamed text
   * when there is any: below the calls, although the content lists it first.
   */
  lemma RenderAssembled(text: string, calls: CallTable)
    requires calls.Valid() && calls.ids != []
    ensures Render(Turn(Assistant, BuildContent(text, calls))) ==
      Stack(seq(|calls.ids|, i requires 0 <= i < |calls.ids| => ToolCallBlock(calls.Values()[i]))
            + (if text != "" then [TextBlock(text)] else []))
  {
    var vs := calls.Values();
    var hs: seq<Part> := if text != "" then [TextPart(text)] else [];
    assert BuildContent(text, calls) == Parts(hs + CallParts(vs));
    RenderCallParts(text, vs);
  }

  /** The drawing of a text part (when the text is not empty) followed by one tool-call part per value. */
  lemma RenderCallParts(text: string, vs: seq<CallData>)
    requires vs != []
    ensures var hs: seq<Part> := if text != "" then [TextPart(text)] else [];
      Render(Turn(Assistant, Parts(hs + CallParts(vs)))) ==
      Stack(seq(|vs|, i requires 0 <= i < |vs| => ToolCallBlock(vs[i]))
            + (if text != "" then [TextBlock(text)] else []))
  {
    var hs: seq<Part> := if text != "" then [TextPart(text)] else [];
    var cps := CallParts(vs);
    var parts := hs + cps;
    AllToolCalls(cps);
    ToolCallBlocksAppend(hs, cps);
    OtherPartsAppend(hs, cps);
    assert ToolCallBlocks(hs) == [] && OtherParts(hs) == hs by {
      if text != "" {
        assert ToolCallBlocks(hs) == [] + ToolCallBlocks([]);
        assert OtherParts(hs) == hs + OtherParts([]);
      }
    }
    assert OtherBlocks(hs) == (if text != "" then [TextBlock(text)] else []) by {
      if text != "" {
        assert OtherBlocks(hs) == [TextBlock(text)] + OtherBlocks([]);
      }
    }
    assert ToolCallBlocks(parts) == seq(|vs|, i requires 0 <= i < |vs| => ToolCallBlock(vs[i]));
    assert ToolCallBlocks(parts) != [];
  }

  lemma {:induction false} NoToolCalls(parts: seq<Part>)
    requires forall i :: 0 <= i < |parts| ==> !parts[i].ToolCallPart?
    ensures OtherParts(parts) == parts
  {
    if parts != [] {
      NoToolCalls(parts[1..]);
    }
  }

  lemma {:induction false} AllImages(parts: seq<Part>)
    requires forall i :: 0 <= i < |parts| ==> parts[i].ImagePart?
    ensures OtherBlocks(parts) == seq(|parts|, i requires 0 <= i < |parts| => ImageBlock(parts[i].image))
  {
    if parts != [] {
      AllImages(parts[1..]);
    }
  }

  /** The parts of a user turn: no tool call, and each one drawable. */
  lemma UserParts(input: string, attachments: seq<File>, encode: File -> string)
    ensures var parts := UserContent(input, attachments, encode);
      && ToolCallBlocks(parts) == []
      && OtherParts(parts) == parts
      && |parts| == (if Trim(input) != "" then 1 else 0) + |attachments|
      && (parts != [] ==> Renderable(parts[0]))
  {
    var hs: seq<Part> := if Trim(input) != "" then [TextPart(input)] else [];
    var ims := ImageParts(attachments, encode);
    var parts := hs + ims;
    assert UserContent(input, attachments, encode) == parts;
    NoToolCalls(parts);
    ToolCallBlocksFacts(parts);
    if hs == [] && ims != [] {
      assert parts[0] == ims[0];
    }
  }

  /** A user turn's parts are drawn as the kept text above one image per attachment. */
  lemma UserBlocks(input: string, attachments: seq<File>, encode: File -> string)
    ensures OtherBlocks(UserContent(input, attachments, encode)) ==
      (if Trim(input) != "" then [TextBlock(input)] else [])
      + seq(|attachments|, i requires 0 <= i < |attachments| => ImageBlock(encode(attachments[i])))
  {
    var hs: seq<Part> := if Trim(input) != "" then [TextPart(input)] else [];
    var ims := ImageParts(attachments, encode);
    assert UserContent(input, attachments, encode) == hs + ims;
    AllImages(ims);
    OtherBlocksAppend(hs, ims);
    assert OtherBlocks(hs) == (if Trim(input) != "" then [TextBlock(input)] else []) by {
      if Trim(input) != "" {
        assert OtherBlocks(hs) == [TextBlock(input)] + OtherBlocks([]);
      }
    }
  }

  /**
   * A user turn is drawn as its text, when kept, above one image per
   * attachment in the order they were attached; with neither it draws nothing.
   */
  lemma RenderUserTurn(input: string, attachments: seq<File>, encode: File -> string)
    ensures Render(UserTurn(input, attachments, encode)) ==
      if Trim(input) == "" && attachments == [] then Blank
      else Stack((if Trim(input) != "" then [TextBlock(input)] else [])
                 + seq(|attachments|, i requires 0 <= i < |attachments| => ImageBlock(encode(attachments[i]))))
  {
    var parts := UserContent(input, attachments, encode);
    UserParts(input, attachments, encode);
    UserBlocks(input, attachments, encode);
    if parts != [] {
      assert Renderable(parts[0]);
    }
  }

  // ---------------------------------------------------------------------
  // The composer

  /** `prev.filter((_, i) => i !== index)`. */
  function RemoveIndex<T>(s: seq<T>, index: int): (r: seq<T>)
    ensures 0 <= index < |s| ==> r == s[..index] + s[index + 1..]
    ensures !(0 <= index < |s|) ==> r == s
  {
    if s == [] then []
    else
      var init := RemoveIndex(s[..|s| - 1], index);
      var last := if |s| - 1 == index then [] else [s[|s| - 1]];
      assert 0 <= index < |s| - 1 ==> s[..|s| - 1][index + 1..] + [s[|s| - 1]] == s[index + 1..];
      init + last
  }

  /** The guard of `submitIfReady`: not waiting for the model, and there is text or an attachment. */
  predicate Ready(isLoading: bool, input: string, attachments: seq<File>) {
    !isLoading && (Trim(input) != "" || |attachments| > 0)
  }

  /** When the send button is greyed out. */
  predicate SendDisabled(isLoading: bool, input: string, attachments: seq<File>) {
    isLoading || (Trim(input) == "" && |attachments| == 0)
  }

  /** The send button is enabled exactly when the keyboard would submit. */
  lemma SendButtonMatchesKeyboard(isLoading: bool, input: string, attachments: seq<File>)
    ensures !SendDisabled(isLoading, input, attachments) <==> Ready(isLoading, input, attachments)
  {
  }

  /** Whatever the composer lets through, the hook accepts once a configuration is loaded. */
  lemma ReadyIsAccepted(isLoading: bool, input: string, attachments: seq<File>, config: Option<Config>)
    requires Ready(isLoading, input, attachments) && config.Some?
    ensures Accepts(input, attachments, config)
  {
  }

  /** Shift+Enter in the single-line field never changes whether Enter would send. */
  lemma ShiftEnterKeepsReadiness(isLoading: bool, input: string, attachments: seq<File>)
    ensures Ready(isLoading, input + "\n", attachments) <==> Ready(isLoading, input, attachments)
  {
    TrimEmptyAfterNewline(input);
  }

  /** The layout effect's decision: a line break forces the text area, otherwise overflow decides. */
  function NextMultiline(input: string, wrapNeeded: bool): (multiline: bool) {
    if '\n' in input then true else wrapNeeded
  }

  /** After Shift+Enter the composer switches to the text area, however wide the field is. */
  lemma ShiftEnterGoesMultiline(input: string, wrapNeeded: bool)
    ensures NextMultiline(input + "\n", wrapNeeded)
  {
    assert (input + "\n")[|input|] == '\n';
  }

  const PlaybackFailed := "Failed to play audio"

  class Composer {
    const session: ChatSession
    var attachments: seq<File>
    var playingMessageIndex: Option<nat>
    var isMultiline: bool
    var speechRequests: seq<string>  // texts handed to the speech service, in order
    var alerts: seq<string>

    constructor (session: ChatSession)
      ensures this.session == session
      ensures attachments == [] && playingMessageIndex == None && !isMultiline
      ensures speechRequests == [] && alerts == []
    {
      this.session := session;
      attachments, playingMessageIndex, isMultiline := [], None, false;
      speechRequests, alerts := [], [];
    }

    /** `handleVoiceTranscription`: the recognised text replaces the composer's text. */
    method VoiceTranscription(text: string)
      modifies session`input
      ensures session.input == text
    {
      session.SetInput(text);
    }

    /** `handleFileSelect`: the chosen files join the end of the list. */
    method HandleFileSelect(selected: seq<File>)
      modifies this`attachments
      ensures attachments == old(attachments) + selected
    {
      if |selected| > 0 {
        attachments := attachments + selected;
      }
    }

    /** `removeAttachment`: drop the file at `index`; an index outside the list drops nothing. */
    method RemoveAttachment(index: int)
      modifies this`attachments
      ensures attachments == RemoveIndex(old(attachments), index)
    {
      attachments := RemoveIndex(attachments, index);
    }

    /** `onFormSubmit`: hand the attachments to the hook, then clear them whatever it decided. */
    method OnFormSubmit(encode: File -> string, outcome: ModelOutcome)
      modifies this`attachments, session`messages, session`input, session`isLoading
      ensures session.View() == Submit(old(session.View()), session.config, old(attachments), encode, outcome)
      ensures attachments == []
    {
      var _ := session.HandleSubmit(attachments, encode, outcome);
      attachments := [];
    }

    /** `submitIfReady`: submit and clear the attachments only when `Ready`. */
    method SubmitIfReady(encode: File -> string, outcome: ModelOutcome) returns (sent: bool)
      modifies this`attachments, session`messages, session`input, session`isLoading
      ensures sent == Ready(old(session.isLoading), old(session.input), old(attachments))
      ensures sent ==> (attachments == [] &&
        session.View() == Submit(old(session.View()), session.config, old(attachments), encode, outcome))
      ensures !sent ==> attachments == old(attachments) && session.View() == old(session.View())
    {
      sent := Ready(session.isLoading, session.input, attachments);
      if sent {
        var _ := session.HandleSubmit(attachments, encode, outcome);
        attachments := [];
      }
    }

    /**
     * `handleSingleLineKeyDown`: Shift+Enter adds a line break to the text,
     * Enter submits when ready, any other key is left to the field.
     */
    method SingleLineKeyDown(key: string, shift: bool, encode: File -> string, outcome: ModelOutcome)
      returns (sent: bool)
      modifies this`attachments, session`messages, session`input, session`isLoading
      ensures key != "Enter" ==>
        !sent && attachments == old(attachments) && session.View() == old(session.View())
      ensures key == "Enter" && shift ==>
        && !sent && attachments == old(attachments)
        && session.View() == old(session.View()).(input := old(session.input) + "\n")
      ensures key == "Enter" && !shift ==>
        && sent == Ready(old(session.isLoading), old(session.input), old(attachments))
        && (sent ==> (attachments == [] &&
              session.View() == Submit(old(session.View()), session.config, old(attachments), encode, outcome)))
        && (!sent ==> attachments == old(attachments) && session.View() == old(session.View()))
    {
      sent := false;
      if key == "Enter" {
        if shift {
          session.SetInput(session.input + "\n");
          return;
        }
        sent := SubmitIfReady(encode, outcome);
      }
    }

    /**
     * `handleMultiLineKeyDown`: Enter without Shift submits when ready;
     * everything else, Shift+Enter included, is the text area's own editing.
     */
    method MultiLineKeyDown(key: string, shift: bool, encode: File -> string, outcome: ModelOutcome)
      returns (sent: bool)
      modifies this`attachments, session`messages, session`input, session`isLoading
      ensures !(key == "Enter" && !shift) ==>
        !sent && attachments == old(attachments) && session.View() == old(session.View())
      ensures key == "Enter" && !shift ==>
        && sent == Ready(old(session.isLoading), old(session.input), old(attachments))
        && (sent ==> (attachments == [] &&
              session.View() == Submit(old(session.View()), session.config, old(attachments), encode, outcome)))
        && (!sent ==> attachments == old(attachments) && session.View() == old(session.View()))
    {
      sent := false;
      if key == "Enter" && !shift {
        sent := SubmitIfReady(encode, outcome);
      }
    }

    /** The layout effect that runs when the text changes. */
    method UpdateLayout(wrapNeeded: bool)
      modifies this`isMultiline
      ensures isMultiline == NextMultiline(session.input, wrapNeeded)
    {
      if '\n' in session.input {
        if !isMultiline {
          isMultiline := true;
        }
        return;
      }
      if wrapNeeded != isMultiline {
        isMultiline := wrapNeeded;
      }
    }

    /**
     * `handlePlayMessage`: a second press on the message already playing is
     * ignored; otherwise the text is sent to the speech service, a failure
     * raises one alert, and the playing marker is cleared at the end.
     */
    method PlayMessage(text: string, index: nat, speechFails: bool)
      modifies this`playingMessageIndex, this`speechRequests, this`alerts
      ensures old(playingMessageIndex) == Some(index) ==>
        && playingMessageIndex == old(playingMessageIndex)
        && speechRequests == old(speechRequests) && alerts == old(alerts)
      ensures old(playingMessageIndex) != Some(index) ==>
        && playingMessageIndex == None
        && speechRequests == old(speechRequests) + [text]
        && alerts == old(alerts) + (if speechFails then [PlaybackFailed] else [])
    {
      if playingMessageIndex == Some(index) {
        return;
      }
      playingMessageIndex := Some(index);
      speechRequests := speechRequests + [text];
      if speechFails {
        alerts := alerts + [PlaybackFailed];
      }
      playingMessageIndex := None;
    }

    /** The play button under an assistant turn: read that turn's text aloud. */
    method PlayTurn(index: nat, speechFails: bool)
      requires index < |session.messages| && session.messages[index].role == Assistant
      modifies this`playingMessageIndex, this`speechRequests, this`alerts
      ensures old(playingMessageIndex) != Some(index) ==>
        speechRequests == old(speechRequests) + [ExtractText(session.messages[index])]
      ensures old(playingMessageIndex) == Some(index) ==> speechRequests == old(speechRequests)
      ensures playingMessageIndex == None || playingMessageIndex == old(playingMessageIndex)
    {
      PlayMessage(ExtractText(session.messages[index]), index, speechFails);
    }
  }
}
