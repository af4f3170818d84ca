/**
 * The chat hook `useBaizeChat` (src/hooks/use-baize-chat.ts): the
 * transcript, the composer's text and the loading flag, and `handleSubmit`,
 * which appends the user's turn, asks the model and folds its stream into
 * the last assistant turn.
 *
 * React state setters are applied in program order. The model call
 * (`streamText`, provider selection, the SDK's own tool-step loop) is
 * outside the model: its outcome is a parameter. Reading an attachment as
 * a data URL is the parameter `encode`.
 */
module ChatHook {
  import opened Basics
  import opened JsStrings
  import opened Transcript
  import opened StreamAssembler

  /** The configuration snapshot loaded from extension storage. */
  datatype Config = Config(apiKey: string, baseUrl: string, model: string, language: string)

  /** What awaiting `streamText` and iterating its `fullStream` produced. */
  datatype ModelOutcome =
    | Rejected(message: string)                                   // threw before any stream existed
    | Streamed(fragments: seq<Fragment>, failure: Option<string>) // yielded these, then ended or threw

  /** The guard of `handleSubmit`: there is text or an attachment, and a configuration is loaded. */
  predicate Accepts(input: string, attachments: seq<File>, config: Option<Config>) {
    (Trim(input) != "" || |attachments| > 0) && config.Some?
  }

  /** One image part per attachment, in the order they were attached. */
  function ImageParts(attachments: seq<File>, encode: File -> string): (parts: seq<Part>)
    ensures |parts| == |attachments|
  {
    seq(|attachments|, i requires 0 <= i < |attachments| => ImagePart(encode(attachments[i])))
  }

  lemma ImagePartsSnoc(attachments: seq<File>, i: nat, encode: File -> string)
    requires i < |attachments|
    ensures ImageParts(attachments[..i + 1], encode) == ImageParts(attachments[..i], encode) + [ImagePart(encode(attachments[i]))]
  {
  }

  /** The user turn's parts: the untrimmed input when its trim is non-empty, then the images. */
  function UserContent(input: string, attachments: seq<File>, encode: File -> string): (parts: seq<Part>) {
    (if Trim(input) != "" then [TextPart(input)] else []) + ImageParts(attachments, encode)
  }

  /**
   * The user turn holds at most one text part: first, carrying the
   * untrimmed input, and present exactly when the trimmed input is non-empty.
   */
  lemma UserContentShape(input: string, attachments: seq<File>, encode: File -> string)
    ensures var parts := UserContent(input, attachments, encode);
      && (forall i :: 0 <= i < |parts| && parts[i].TextPart? ==> i == 0 && parts[i] == TextPart(input))
      && (Trim(input) != "" <==> exists i :: 0 <= i < |parts| && parts[i].TextPart?)
  {
    var parts := UserContent(input, attachments, encode);
    var hs, ims := (if Trim(input) != "" then [TextPart(input)] else []), ImageParts(attachments, encode);
    assert parts == hs + ims;
    forall i | 0 <= i < |parts| && parts[i].TextPart? ensures i == 0 && parts[i] == TextPart(input) {
    }
    if Trim(input) != "" {
      assert parts[0].TextPart?;
    }
  }

  /** The turns appended after the user turn for a given model outcome. */
  function Reply(outcome: ModelOutcome): (turns: seq<Turn>)
  {
    match outcome
    case Rejected(message) => [ErrorTurn(message)]
    case Streamed(fragments, failure) =>
      [Turn(Assistant, AssembledContent(fragments))] + (if failure.Some? then [ErrorTurn(failure.value)] else [])
  }

  /**
   * Whatever happens after submission, the reply is one or two assistant
   * turns; a failure adds exactly one "Error: " turn, at the end, and a
   * stream that was started always leaves its assembled turn first.
   */
  lemma ReplyShape(outcome: ModelOutcome)
    ensures 1 <= |Reply(outcome)| <= 2
    ensures forall i :: 0 <= i < |Reply(outcome)| ==> Reply(outcome)[i].role == Assistant
    ensures outcome.Rejected? ==> Reply(outcome) == [ErrorTurn(outcome.message)]
    ensures outcome.Streamed? ==> Reply(outcome)[0].content == AssembledContent(outcome.fragments)
    ensures outcome.Streamed? ==>
      (|Reply(outcome)| == 2 <==> outcome.failure.Some?) &&
      (outcome.failure.Some? ==> Reply(outcome)[1] == ErrorTurn(outcome.failure.value))
  {
  }

  /** The hook's state as the view sees it. */
  datatype HookState = HookState(messages: seq<Turn>, input: string, isLoading: bool)

  function UserTurn(input: string, attachments: seq<File>, encode: File -> string): (t: Turn) {
    Turn(User, Parts(UserContent(input, attachments, encode)))
  }

  /** The state after `handleSubmit` has run to the end. */
  function Submit(s: HookState, config: Option<Config>, attachments: seq<File>, encode: File -> string,
                  outcome: ModelOutcome): HookState
  {
    if !Accepts(s.input, attachments, config) then s
    else HookState(s.messages + [UserTurn(s.input, attachments, encode)] + Reply(outcome), "", false)
  }

  /**
   * A refused submission changes nothing. An accepted one keeps every
   * earlier turn, puts the user turn right after them and the reply after
   * it, clears the input and ends with the loading flag off.
   */
  lemma SubmitEffect(s: HookState, config: Option<Config>, attachments: seq<File>, encode: File -> string,
                     outcome: ModelOutcome)
    ensures var t := Submit(s, config, attachments, encode, outcome);
      && (!Accepts(s.input, attachments, config) ==> t == s)
      && (Accepts(s.input, attachments, config) ==>
            && |t.messages| == |s.messages| + 1 + |Reply(outcome)|
            && t.messages[..|s.messages|] == s.messages
            && t.messages[|s.messages|] == UserTurn(s.input, attachments, encode)
            && t.messages[|s.messages| + 1..] == Reply(outcome)
            && t.input == "" && !t.isLoading)
  {
    if Accepts(s.input, attachments, config) {
      var t := Submit(s, config, attachments, encode, outcome);
      assert t.messages == (s.messages + [UserTurn(s.input, attachments, encode)]) + Reply(outcome);
    }
  }

  /**
   * How an accepted submission ends. When `streamText` threw, or the stream
   * broke off, the last turn is an assistant turn whose text is "Error: "
   * followed by the error's message; otherwise it is the assistant turn
   * assembled from the whole stream. Either way every earlier turn is kept
   * and the user's turn follows them.
   */
  lemma LastTurnAfterSubmit(s: HookState, config: Option<Config>, attachments: seq<File>, encode: File -> string,
                            outcome: ModelOutcome)
    requires Accepts(s.input, attachments, config)
    ensures var t := Submit(s, config, attachments, encode, outcome).messages;
      && |t| >= |s.messages| + 2
      && t[..|s.messages|] == s.messages
      && t[|s.messages|] == UserTurn(s.input, attachments, encode)
      && t[|t| - 1].role == Assistant
      && (outcome.Rejected? ==> t[|t| - 1].content == Plain("Error: " + outcome.message))
      && (outcome.Streamed? && outcome.failure.Some? ==> t[|t| - 1].content == Plain("Error: " + outcome.failure.value))
      && (outcome.Streamed? && outcome.failure.None? ==>
            |t| == |s.messages| + 2 && t[|t| - 1].content == AssembledContent(outcome.fragments))
  {
    SubmitEffect(s, config, attachments, encode, outcome);
    ReplyShape(outcome);
    var t := Submit(s, config, attachments, encode, outcome).messages;
    assert t[|t| - 1] == Reply(outcome)[|Reply(outcome)| - 1];
  }

  /**
   * The user turn `handleSubmit` builds: push the text part, then one image
   * part per attachment as each file finishes reading.
   */
  method ComposeUserMessage(input: string, attachments: seq<File>, encode: File -> string)
    returns (userMessage: Turn)
    ensures userMessage == UserTurn(input, attachments, encode)
  {
    var contentParts: seq<Part> := [];
    if Trim(input) != "" {
      contentParts := contentParts + [TextPart(input)];
    }
    assert contentParts == if Trim(input) != "" then [TextPart(input)] else [];
    contentParts := PushImages(contentParts, attachments, encode);
    userMessage := Turn(User, Parts(contentParts));
  }

  /** The attachment loop: push one image part per file, in order. */
  method PushImages(contentParts: seq<Part>, attachments: seq<File>, encode: File -> string)
    returns (result: seq<Part>)
    ensures result == contentParts + ImageParts(attachments, encode)
  {
    result := contentParts;
    var i := 0;
    while i < |attachments|
      invariant 0 <= i <= |attachments|
      invariant result == contentParts + ImageParts(attachments[..i], encode)
    {
      ImagePartsSnoc(attachments, i, encode);
      ghost var image := ImagePart(encode(attachments[i]));
      assert (contentParts + ImageParts(attachments[..i], encode)) + [image]
          == contentParts + (ImageParts(attachments[..i], encode) + [image]);
      result := result + [ImagePart(encode(attachments[i]))];
      i := i + 1;
    }
    assert attachments[..i] == attachments;
  }

  class ChatSession {
    var messages: seq<Turn>
    var input: string
    var isLoading: bool
    var config: Option<Config>

    constructor (config: Option<Config>)
      ensures messages == [] && input == "" && !isLoading && this.config == config
    {
      messages, input, isLoading := [], "", false;
      this.config := config;
    }

    function View(): (v: HookState)
      reads this
    {
      HookState(messages, input, isLoading)
    }

    /** `handleInputChange`: the composer's text becomes `value`. */
    method SetInput(value: string)
      modifies this`input
      ensures input == value
    {
      input := value;
    }

    /**
     * `handleSubmit(e, attachments)`. Returns the transcript handed to the
     * model, or None when the guard turned the call into a no-op.
     */
    method HandleSubmit(attachments: seq<File>, encode: File -> string, outcome: ModelOutcome)
      returns (request: Option<seq<Turn>>)
      modifies this`messages, this`input, this`isLoading
      ensures View() == Submit(old(View()), config, attachments, encode, outcome)
      ensures request == if Accepts(old(input), attachments, config)
                         then Some(old(messages) + [UserTurn(old(input), attachments, encode)]) else None
    {
      if !Accepts(input, attachments, config) {
        return None;
      }
      var sent := Send(attachments, encode, outcome);
      request := Some(sent);
    }

    /**
     * The body of `handleSubmit` past its guard: raise the loading flag,
     * append the user turn and clear the text, await the reply, lower the
     * flag. Returns the transcript handed to the model.
     */
    method Send(attachments: seq<File>, encode: File -> string, outcome: ModelOutcome)
      returns (request: seq<Turn>)
      modifies this`messages, this`input, this`isLoading
      ensures request == old(messages) + [UserTurn(old(input), attachments, encode)]
      ensures messages == request + Reply(outcome) && input == "" && !isLoading
    {
      isLoading := true;

      var userMessage := ComposeUserMessage(input, attachments, encode);
      request := messages + [userMessage];
      messages := request;
      input := "";

      AwaitReply(outcome);
      isLoading := false;
    }

    /**
     * The `try`/`catch` of `handleSubmit`: a rejected call appends one error
     * turn; a started stream appends the empty assistant placeholder, folds
     * the fragments into it, and a failure while iterating appends one error
     * turn after it.
     */
    method AwaitReply(outcome: ModelOutcome)
      modifies this`messages
      ensures messages == old(messages) + Reply(outcome)
    {
      match outcome {
        case Rejected(message) =>
          messages := messages + [ErrorTurn(message)];
        case Streamed(fragments, failure) =>
          var prior := messages;
          messages := messages + [Turn(Assistant, Plain(""))];
          ConsumeStream(fragments);
          PlaceholderHoldsStream(prior, fragments);
          ghost var assembled := Turn(Assistant, AssembledContent(fragments));
          assert messages == prior + [assembled];
          if failure.Some? {
            messages := messages + [ErrorTurn(failure.value)];
            assert messages == prior + ([assembled] + [ErrorTurn(failure.value)]);
          } else {
            assert [assembled] + [] == [assembled];
          }
      }
    }

    /** The body of the stream loop: a text delta extends the text, a tool call is recorded by id. */
    static method Absorb(text: string, calls: CallTable, part: Fragment) returns (text': string, calls': CallTable)
      requires calls.Valid()
      ensures Assembly(text', calls') == Step(Assembly(text, calls), part)
    {
      text', calls' := text, calls;
      match part {
        case TextDelta(_, _) =>
          text' := text + DeltaText(part);
        case ToolCallFragment(id, call) =>
          calls' := calls.Put(id, call);
        case OtherFragment(_) =>
      }
    }

    /**
     * The `for await` loop over the model's stream: update the accumulators,
     * then rebuild the last assistant turn after every fragment.
     */
    method ConsumeStream(fragments: seq<Fragment>)
      requires messages != []
      modifies this`messages
      ensures messages == if fragments == [] then old(messages)
                          else ReplaceLast(old(messages), AssembledContent(fragments))
    {
      var accumulatedText := "";
      var toolCalls := EmptyTable;
      var i := 0;
      while i < |fragments|
        invariant 0 <= i <= |fragments|
        invariant Assembly(accumulatedText, toolCalls) == Fold(fragments[..i])
        invariant messages == if i == 0 then old(messages)
                              else ReplaceLast(old(messages), BuildContent(accumulatedText, toolCalls))
      {
        var part := fragments[i];
        ghost var before := Assembly(accumulatedText, toolCalls);
        FoldPrefix(fragments, i);
        accumulatedText, toolCalls := Absorb(accumulatedText, toolCalls, part);
        var content := BuildContent(accumulatedText, toolCalls);
        if i > 0 {
          ReplaceLastTwice(old(messages), BuildContent(before.text, before.calls), content);
        }
        messages := ReplaceLast(messages, content);
        i := i + 1;
      }
      assert fragments[..i] == fragments;
    }
  }
}
