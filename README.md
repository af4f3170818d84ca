# Baize agent core, modelled in Dafny

Baize is a browser-extension agent. A side-panel chat sends the user's
text and images to a language model and streams the reply into the
transcript. A content script injected into the page carries out the
model's actions: it reads the page, clicks, types into form fields, goes
back in history and navigates.

This project models three parts of it and proves properties of each.

- **The chat hook `useBaizeChat`** (`src/hooks/use-baize-chat.ts`).
  - `ChatHook.ChatSession` is a class over the hook's state: transcript, input text and loading flag.
  - `handleSubmit` is a method.
  - `StreamAssembler` is the pure fold that turns the model's stream fragments into the content of the last assistant turn.
- **The content script's message listener** (`entrypoints/content.ts`).
  - `ContentScript.PageAgent` is a class over an abstract document.
  - It records one ordered log of dispatched events, responses and navigations, plus a queue of pending `setTimeout` callbacks.
- **The chat view** (`src/components/Chat.tsx`).
  - `ChatView.Render` models how a turn is drawn.
  - `ChatView.ExtractText` models what is read aloud.
  - `ChatView.Composer` models the composer's handlers: attachments, submit, keyboard, layout and playback.

Shared pieces:

- `Basics`: an optional value (a payload field that may be absent) and the two projections of a sequence of pairs.
- `JsStrings`: JavaScript `trim`, ASCII `toLowerCase` and `join`.
- `Transcript`: turns, parts and content.
- `PropertyOrder`: the key order of `Object.keys` and `Object.values`, as OrdinaryOwnPropertyKeys defines it in section 10.1.11.1 of ECMA-262.
  - Array-index keys come first, in ascending numeric order. The other keys follow in creation order.
  - `OwnKeys` builds that order one key creation at a time.
  - `OwnKeysIsEnumerated` proves that this equals the standard's statement, `Enumerated`.

Where the code differs from the intended behaviour described for it, the model follows the code:

- **Placeholder.** The empty assistant placeholder is appended only after `streamText` has resolved. So the model is sent the transcript without it (`Send`, `AwaitReply`).
- **Failures.** A failure does not overwrite the placeholder. It appends a new `"Error: "` turn (`Reply`, `ReplyShape`). When the stream fails midway, the partly assembled turn stays and the error turn follows it.
- **Tool-call order.** Tool calls are listed in `Object.values` order, not strictly in insertion order. Ids that are array indices ("7", "12") jump ahead of the others and are sorted numerically. `IndicesJumpAhead` shows this; `AssembledCallOrder` states the general case.
- **`__proto__` as a call id.** `toolCalls` is an object literal, so storing a call under the id `__proto__` replaces the object's prototype and creates no key. Such a call is never shown, and a stream whose only call has that id is shown as plain text (`CallTable.Put`, `ProtoCallShowsText`).

## Model

| member | source | states |
|---|---|---|
| ChatHook.Accepts | src/hooks/use-baize-chat.ts:37 | the submit guard: trimmed text or at least one attachment, and a loaded configuration |
| ChatHook.UserContentShape | src/hooks/use-baize-chat.ts:41-63 | the user turn has at most one text part. It comes first, carries the untrimmed input, and is present exactly when the trimmed input is non-empty |
| ChatHook.ComposeUserMessage | src/hooks/use-baize-chat.ts:41-65 | the imperative construction yields the user turn: the text part if kept, then the image parts |
| ChatHook.PushImages | src/hooks/use-baize-chat.ts:46-63 | the attachment loop appends one image part per file, in attachment order |
| ChatHook.ReplyShape | src/hooks/use-baize-chat.ts:88-141 | the reply has one or two assistant turns. A rejected call gives exactly one error turn. A started stream leaves its assembled turn first, followed by an error turn exactly when iteration failed |
| ChatHook.SubmitEffect | src/hooks/use-baize-chat.ts:34-147 | a refused submission changes nothing. An accepted one keeps every earlier turn, appends the user turn and then the reply, clears the input and lowers the loading flag |
| ChatHook.ChatSession.constructor | src/hooks/use-baize-chat.ts:8-10 | initial state: empty transcript, empty input, not loading |
| ChatHook.ChatSession.SetInput | src/hooks/use-baize-chat.ts:152-153 | `handleInputChange` replaces the input text |
| ChatHook.ChatSession.HandleSubmit | src/hooks/use-baize-chat.ts:34-147 | the new state is `Submit` of the old one. The transcript handed to the model is the earlier turns plus the user turn, and no request is made when the guard fails |
| ChatHook.ChatSession.Send | src/hooks/use-baize-chat.ts:39-144 | past the guard: the request is the old transcript plus the user turn, the final transcript is that request plus the reply, the input is cleared and loading ends |
| ChatHook.ChatSession.AwaitReply | src/hooks/use-baize-chat.ts:69-144 | the try/catch appends exactly `Reply(outcome)` to the transcript |
| ChatHook.ChatSession.Absorb | src/hooks/use-baize-chat.ts:101-108 | one loop body updates the two accumulators as one fold `Step` does |
| ChatHook.ChatSession.ConsumeStream | src/hooks/use-baize-chat.ts:96-135 | after the loop, the last turn holds the content assembled from every fragment. With no fragments the transcript is unchanged |
| ChatHook.LastTurnAfterSubmit | src/hooks/use-baize-chat.ts:64-147 | after an accepted submission the earlier turns are kept and the user turn follows them. The last turn is an assistant turn: "Error: " plus the message when `streamText` threw or the stream broke off, otherwise the turn assembled from the whole stream |
| StreamAssembler.CallTable.Put | src/hooks/use-baize-chat.ts:96-107 | storing under an id overwrites that entry only. A new id is created last, a known id keeps its place, and the table stays well formed. The id `__proto__` runs the inherited prototype setter of the object literal and stores nothing |
| StreamAssembler.ValuesAt | src/hooks/use-baize-chat.ts:119 | `Object.values` lists each entry once, the i-th under the i-th key of the enumeration order |
| StreamAssembler.OverwriteKeepsPosition | src/hooks/use-baize-chat.ts:107 | re-storing a known id changes only that id's value, at its own position, and not the number of values |
| StreamAssembler.BuildContent | src/hooks/use-baize-chat.ts:115-131 | the content is plain text exactly when no tool call has been stored, and never of any other kind |
| StreamAssembler.BuildContentShape | src/hooks/use-baize-chat.ts:115-131 | plain content is the accumulated text. Part content is the text part (only for non-empty text) followed by one tool-call part per stored value, in enumeration order |
| StreamAssembler.ReplaceLast | src/hooks/use-baize-chat.ts:110-134 | only the last turn can change, and only when it is an assistant turn; otherwise the transcript is unchanged |
| StreamAssembler.ReplaceLastTwice | src/hooks/use-baize-chat.ts:110-134 | successive rebuilds do not accumulate: replacing twice equals replacing once with the later content |
| StreamAssembler.PlaceholderHoldsStream | src/hooks/use-baize-chat.ts:99-134 | the placeholder turn ends up holding exactly the assembled content, and no turn is added mid-stream |
| StreamAssembler.FoldText | src/hooks/use-baize-chat.ts:101-104 | the accumulated text is the concatenation of every delta, in arrival order. Each delta contributes its `text` field, or its `textDelta` field when `text` is empty |
| StreamAssembler.FoldCalls | src/hooks/use-baize-chat.ts:105-108 | keys are created in order of first appearance, and each id holds the call of its latest fragment (last write wins). Calls with id `__proto__` are not stored |
| StreamAssembler.TextOnlyContent | src/hooks/use-baize-chat.ts:114-131 | a stream without a stored tool call (none at all, or only ones with id `__proto__`) assembles to the plain concatenated text; a stream with one assembles to a list of parts |
| StreamAssembler.ProtoCallShowsText | src/hooks/use-baize-chat.ts:107-131 | a stream of the text "hi" and one tool call with id `__proto__` is shown as the plain text "hi" |
| StreamAssembler.AssembledCallOrder | src/hooks/use-baize-chat.ts:115-125 | for any ids: the text part when non-empty, then for each distinct stored id (every id but `__proto__`) in `OwnKeys` order the call of its latest fragment |
| StreamAssembler.DistinctCallsContent | src/hooks/use-baize-chat.ts:115-125 | with distinct ids, none an array index, the content is the text part when non-empty and then every call in arrival order, however deltas and calls interleave |
| StreamAssembler.DistinctCallsStored | src/hooks/use-baize-chat.ts:105-108 | with distinct ids, the keys are the ids in arrival order and each stores its own call |
| StreamAssembler.FirstSeenDistinct | src/hooks/use-baize-chat.ts:107 | with distinct ids, order of first appearance is arrival order |
| StreamAssembler.InterleavingIrrelevant | src/hooks/use-baize-chat.ts:101-134 | two streams with the same deltas and the same calls, interleaved differently, assemble the same content |
| PropertyOrder.OwnKeysIsEnumerated | src/hooks/use-baize-chat.ts:119 | building the key list one creation at a time yields the indices-ascending-then-names order of section 10.1.11.1 of ECMA-262 |
| PropertyOrder.OwnKeysPermutes | src/hooks/use-baize-chat.ts:119 | the enumeration is a permutation of the created keys |
| PropertyOrder.OwnKeysMembers | src/hooks/use-baize-chat.ts:115-119 | as many keys are enumerated as were created (`Object.keys(...).length`), and exactly those keys |
| PropertyOrder.OwnKeysDistinct | src/hooks/use-baize-chat.ts:119 | distinct keys enumerate without repetition |
| PropertyOrder.OwnKeysOrder | src/hooks/use-baize-chat.ts:119 | array indices come first, in ascending numeric order. The other keys follow, in creation order |
| PropertyOrder.NamesOnly | src/hooks/use-baize-chat.ts:119 | with no array-index key, enumeration is creation order |
| PropertyOrder.IndicesJumpAhead | src/hooks/use-baize-chat.ts:119 | keys created as "b", "2", "a", "1" enumerate as "1", "2", "b", "a" |
| PropertyOrder.InsertFacts | src/hooks/use-baize-chat.ts:119 | inserting a numbered key keeps the list ascending and adds exactly that key |
| PropertyOrder.SortFacts | src/hooks/use-baize-chat.ts:119 | sorting the indices yields an ascending permutation of them |
| PropertyOrder.SplitKeys | src/hooks/use-baize-chat.ts:119 | every key is either an array index or a name, and counts once |
| JsStrings.TrimEmptyIff | src/hooks/use-baize-chat.ts:37 | `s.trim()` is empty exactly when every character of `s` is white space |
| JsStrings.TrimLeading | entrypoints/content.ts:197 | leading white space never matters to the trimmed URL |
| JsStrings.TrimEndKeeps | entrypoints/content.ts:197 | trimming keeps every character up to the last one that is not white space |
| JsStrings.TrimEmptyAfterNewline | src/components/Chat.tsx:169 | appending a line break never changes whether the trimmed input is empty |
| ContentScript.FirstWithValue | entrypoints/content.ts:130 | `find` by value: none exactly when no option has that value, otherwise the first such index |
| ContentScript.FirstWithText | entrypoints/content.ts:131 | `find` by the option's `text` (not its `label` attribute): none exactly when no option has that text, otherwise the first such index |
| ContentScript.SetTextByKind | entrypoints/content.ts:81-157 | inputs (other than checkbox, radio and file), text areas and editable regions take the text. Those three input types, and elements of no editable kind, refuse it. A select takes it exactly when an option matches |
| ContentScript.SelectChoosesValueThenText | entrypoints/content.ts:127-143 | a select takes the value of the first option whose value matches. Otherwise it takes the value of the first option whose `text` matches. It refuses, with the "Option not found" error, exactly when neither matches |
| ContentScript.SelectSecondOption | entrypoints/content.ts:127-143 | with options a/A, b/B and c/C, the text "b" selects the second option |
| ContentScript.CheckUrlAllows | entrypoints/content.ts:191-213 | a URL is allowed exactly when it is present and non-empty, its trim is non-empty, and the trim does not start with "javascript:" in any letter case. The target is the trimmed URL. A URL made only of white space is refused as empty |
| ContentScript.ScriptUrlBlocked | entrypoints/content.ts:202-208 | a `javascript:` scheme in any letter case, after any leading white space, is blocked |
| ContentScript.ScriptPrefixBlocked | entrypoints/content.ts:197-208 | a URL whose trim starts with the scheme in any letter case is blocked |
| ContentScript.ResponseCountAppend | entrypoints/content.ts:6-222 | responses in a log add up across concatenation |
| ContentScript.AnsweredAddsOne | entrypoints/content.ts:6-222 | an answered request adds exactly one response and no navigation |
| ContentScript.PageAgent.constructor | entrypoints/content.ts:3-6 | the listener starts with an empty log and no pending timers over the given document |
| ContentScript.PageAgent.GetPageContent | entrypoints/content.ts:9-32 | answers with body, title and URL; if building that answer fails, with the body text and "Error: " plus the message |
| ContentScript.PageAgent.ClickElement | entrypoints/content.ts:34-54 | a match that is an HTMLElement is clicked once and then answered with success. A match without a `click` method (an SVG element, say) throws and is answered with "Invalid selector or error: element.click is not a function". No match, or a selector that throws, is answered with its error. Only a success clicks anything |
| ContentScript.PageAgent.DispatchInputEvents | entrypoints/content.ts:72-79 | an `input` event, then a `change` event, to the same element |
| ContentScript.PageAgent.InputText | entrypoints/content.ts:56-165 | missing selector, no match and a throwing selector each give one error, with nothing written. Otherwise the element gets `SetText`'s state and an input and a change event, and success is answered. A refusal gives its own error |
| ContentScript.PageAgent.WriteText | entrypoints/content.ts:81-157 | the element-kind dispatch writes exactly what `SetText` says, to that element only |
| ContentScript.PageAgent.GoBack | entrypoints/content.ts:167-188 | with at most one history entry it fails and schedules nothing. Otherwise it answers success first and queues `history.back()` |
| ContentScript.PageAgent.NavigateToUrl | entrypoints/content.ts:190-221 | a refused URL is answered with its error and nothing is queued. An allowed one is answered with success and navigation to the trimmed URL is queued |
| ContentScript.PageAgent.FireTimer | entrypoints/content.ts:177-179 | a queued callback runs later: the navigation happens then, oldest first |
| ContentScript.PageAgent.OnMessage | entrypoints/content.ts:6-222 | every recognised request is answered exactly once and an unrecognised one not at all. The channel stays open only for the page read. Only INPUT_TEXT writes to elements, only GO_BACK and NAVIGATE_TO_URL queue navigation, and nothing navigates inside the listener |
| ChatView.ExtractIgnoresOtherParts | src/components/Chat.tsx:126-130 | parts that are not text do not affect what is read aloud |
| ChatView.ExtractAppendsText | src/components/Chat.tsx:126-130 | a further text part is read after the earlier ones, joined by one space |
| ChatView.ExtractAssembled | src/components/Chat.tsx:122-133 | playing an assembled assistant turn reads exactly the streamed text, never the tool calls |
| ChatView.ExtractUserTurn | src/components/Chat.tsx:122-133 | playing a user turn reads the typed text when it was kept, and nothing otherwise |
| ChatView.OtherPartsMembers | src/components/Chat.tsx:257-259 | the other parts are exactly the parts that are not tool calls |
| ChatView.ToolCallBlocksFacts | src/components/Chat.tsx:254-256 | only tool-call blocks are drawn from tool-call parts, and none exactly when there is no tool call |
| ChatView.RenderBlankIff | src/components/Chat.tsx:253-266 | a part list draws nothing exactly when it holds no tool call, text or image |
| ChatView.RenderCallsFirst | src/components/Chat.tsx:267-308 | tool-call blocks are always drawn above every other block |
| ChatView.RenderSkipsResults | src/components/Chat.tsx:282-305 | inserting a tool result, or a part of unknown kind, changes nothing that is drawn |
| ChatView.RenderAssembled | src/components/Chat.tsx:245-311 | an assembled turn with tool calls draws one block per call in enumeration order, then the text below them |
| ChatView.RenderUserTurn | src/components/Chat.tsx:245-311 | a user turn draws the kept text above one image per attachment; with neither, it draws nothing |
| ChatView.RemoveIndex | src/components/Chat.tsx:146-148 | removing at an index drops exactly that element; an index outside the list drops nothing |
| ChatView.SendButtonMatchesKeyboard | src/components/Chat.tsx:499-501 | the send button is enabled exactly when the keyboard would submit |
| ChatView.ReadyIsAccepted | src/components/Chat.tsx:156-161 | whatever the composer lets through, the hook accepts once a configuration is loaded |
| ChatView.ShiftEnterKeepsReadiness | src/components/Chat.tsx:166-171 | Shift+Enter never changes whether Enter would send |
| ChatView.ShiftEnterGoesMultiline | src/components/Chat.tsx:228-233 | after Shift+Enter the composer switches to the text area, whatever the width |
| ChatView.Composer.constructor | src/components/Chat.tsx:49-57 | no attachments, nothing playing, single-line mode |
| ChatView.Composer.VoiceTranscription | src/components/Chat.tsx:96-99 | recognised speech replaces the input text |
| ChatView.Composer.HandleFileSelect | src/components/Chat.tsx:135-144 | chosen files join the end of the attachment list |
| ChatView.Composer.RemoveAttachment | src/components/Chat.tsx:146-148 | the attachment list loses exactly the element at that index |
| ChatView.Composer.OnFormSubmit | src/components/Chat.tsx:150-154 | the hook runs `Submit` with the current attachments, which are then cleared, whatever the hook decided |
| ChatView.Composer.SubmitIfReady | src/components/Chat.tsx:156-161 | submits and clears the attachments exactly when not loading and there is text or an attachment; otherwise nothing changes |
| ChatView.Composer.SingleLineKeyDown | src/components/Chat.tsx:163-175 | Enter submits when ready, Shift+Enter appends a line break, and other keys change nothing |
| ChatView.Composer.MultiLineKeyDown | src/components/Chat.tsx:177-184 | only Enter without Shift submits; every other key leaves the state alone |
| ChatView.Composer.UpdateLayout | src/components/Chat.tsx:228-239 | a line break forces the text area; otherwise the overflow measurement decides |
| ChatView.Composer.PlayMessage | src/components/Chat.tsx:105-120 | a message already playing is ignored. Otherwise its text is sent once to the speech service, a failure raises one alert, and nothing is playing afterwards |
| ChatView.Composer.PlayTurn | src/components/Chat.tsx:392-416 | the play button under an assistant turn reads that turn's extracted text |

## Left out

- The model call is a parameter (`ModelOutcome`): `streamText`, provider selection by model name, the system prompt, the tool registry and the SDK's `maxSteps` loop are not modelled.
- Loading the configuration from `chrome.storage` is not modelled: the configuration is given to the session, loaded or not.
- Reading an attachment as a data URL (`FileReader`) is the function parameter `encode`.
- React state updates are applied one after another in program order. Batching, stale closures and concurrent submissions are not modelled.
- `console` logging, scrolling, focus handling, `VoiceControl`, the text-area height limit (`isOverLimit`), the no-API-key setup screen, Settings, i18n and the speech service's audio are not modelled.
- `handlePromptClick` calls `sendMessage`, which the hook does not return. It is not modelled.
- ChatView.Composer.PlayMessage: the intermediate "playing" state during the awaited speech call is not observable in the model; only the final state is.
- Shift+Enter inside the text area is the browser's own line break and is not modelled.
- The CSS selector language is abstract: a map from selector strings to a match, no match, or an exception.
- The page `body` node is one abstract value.
- ContentScript.PageAgent.GoBack: the catch path around `history.length` is left out, because reading that property does not throw in a fully active document, which is where a content script's listener runs.
- ContentScript.PageAgent.NavigateToUrl: the catch path is left out, because `String(url).trim()` cannot throw on a string. A non-string `url` payload and `String()` coercion are left out for the same reason.
- ContentScript.PageAgent.ClickElement: the selector is a string or absent, and an absent one reaches `querySelector` as "undefined". A `null` or other non-string selector, which `querySelector` converts with `String()` (a `null` one gives "Element not found: null"), is not modelled.
- ContentScript.PageAgent.InputText: the `text` payload is taken to be a string or absent. The `String()` coercion that `String(text ?? "")` applies to a number, object or other non-string value is not modelled.
- Browser value sanitisation (for example an `<input type="number">` rejecting text) is not modelled: the written value is the text.
- JsStrings.AsciiLower: lower-casing covers ASCII letters only. The `javascript:` test is still exact. `/^javascript:/i` has no `u` flag, so its case-insensitive matching never maps a non-ASCII character to an ASCII one. It therefore matches exactly the ASCII case variants of the scheme, and that is what lower-casing the first 11 characters with `AsciiLower` decides. An input's `type` property is always one of the ASCII keywords the browser knows, with an unknown attribute reading as "text", so ASCII lower-casing is exact there too.
- StreamAssembler.DistinctCallsContent: it requires that no id is an array index. AssembledCallOrder states the general case.
- `wxt.config.ts`, `src/lib/elevenlabs.ts`, `src/lib/i18n.ts`, `src/components/Settings.tsx` and `src/components/VoiceControl.tsx` are not part of this model.
