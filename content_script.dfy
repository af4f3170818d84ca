/**
 * The content script's message listener (entrypoints/content.ts): the
 * action executor that reads the page, clicks, types into form fields and
 * navigates on behalf of the agent, answering every handled request with
 * exactly one response.
 *
 * The document is abstract: `selectors` says what `querySelector` does with
 * each selector string (an element, no match, or an exception with its
 * message), and `elements` holds the state of every element the handlers
 * may write. Everything observable happens through one ordered `log`:
 * dispatched events, responses, and navigations. `setTimeout` callbacks are
 * the queue `timers`, run later by `FireTimer`.
 */
module ContentScript {
  import opened Basics
  import opened JsStrings

  datatype SelectOption = SelectOption(value: string, text: string)

  /** The element kinds INPUT_TEXT tells apart, with the state it reads and writes. */
  datatype Element =
    | InputElement(inputType: string, value: string)  // HTMLInputElement; `inputType` is its `type` property
    | TextAreaElement(value: string)
    | SelectElement(value: string, options: seq<SelectOption>)
    | EditableElement(textContent: string)            // an HTMLElement whose isContentEditable is true
    | OtherElement(textContent: string, isHtml: bool) // any other element; `isHtml` when it is an HTMLElement

  /**
   * Whether the element has a `click` method: every HTMLElement does, while
   * an element of another namespace (an SVG icon, say) does not, although
   * the listener casts it to HTMLElement.
   */
  predicate HasClick(e: Element) {
    !e.OtherElement? || e.isHtml
  }

  /** The TypeError that calling the missing `click` method raises. */
  const NoClickMethod := "element.click is not a function"

  /** What `document.querySelector(selector)` does. */
  datatype Query = Matches(element: nat) | NoMatch | Throws(message: string)

  datatype EventKind = ClickEvent | InputEvent | ChangeEvent

  datatype PageBody = BodyNode | FallbackText(text: string)

  /** The argument of `sendResponse`. */
  datatype Response =
    | Ok                    // { success: true }
    | Failed(error: string) // { success: false, error }
    | PageContent(content: PageBody, title: string, url: string, readError: Option<string>)

  datatype Navigation = Back | Assign(url: string)

  datatype Effect =
    | Dispatched(target: nat, kind: EventKind)
    | Responded(response: Response)
    | Navigated(navigation: Navigation)

  /** A message as the listener sees it; an absent payload field is None. */
  datatype Request =
    | GetPageContent
    | ClickElement(selector: Option<string>)
    | InputText(selector: Option<string>, text: Option<string>)
    | GoBack
    | NavigateToUrl(url: Option<string>)
    | Unrecognised(kind: string)

  /** Every selector that matches names an element that exists. */
  ghost predicate WellFormed(elements: seq<Element>, selectors: map<string, Query>) {
    forall s :: s in selectors && selectors[s].Matches? ==> selectors[s].element < |elements|
  }

  function Resolve(selectors: map<string, Query>, selector: string): (q: Query) {
    if selector in selectors then selectors[selector] else NoMatch
  }

  // ---------------------------------------------------------------------
  // Choosing an option of a select element.

  /** `options.find(opt => opt.value === t)`, as an index. */
  function FirstWithValue(options: seq<SelectOption>, t: string): (r: Option<nat>)
    ensures r.None? <==> forall i :: 0 <= i < |options| ==> options[i].value != t
    ensures r.Some? ==>
      && r.value < |options| && options[r.value].value == t
      && forall j :: 0 <= j < r.value ==> options[j].value != t
  {
    if options == [] then None
    else if options[0].value == t then Some(0)
    else match FirstWithValue(options[1..], t)
      case None => None
      case Some(k) => Some(k + 1)
  }

  /** `options.find(opt => opt.text === t)`, as an index. */
  function FirstWithText(options: seq<SelectOption>, t: string): (r: Option<nat>)
    ensures r.None? <==> forall i :: 0 <= i < |options| ==> options[i].text != t
    ensures r.Some? ==>
      && r.value < |options| && options[r.value].text == t
      && forall j :: 0 <= j < r.value ==> options[j].text != t
  {
    if options == [] then None
    else if options[0].text == t then Some(0)
    else match FirstWithText(options[1..], t)
      case None => None
      case Some(k) => Some(k + 1)
  }

  /** The option INPUT_TEXT selects: the first with that value, else the first whose text is that. */
  function ChooseOption(options: seq<SelectOption>, t: string): (r: Option<nat>)
    ensures r.Some? ==> r.value < |options|
  {
    match FirstWithValue(options, t)
    case Some(k) => Some(k)
    case None => FirstWithText(options, t)
  }

  // ---------------------------------------------------------------------
  // The pure part of INPUT_TEXT.

  datatype Edit = Edited(element: Element) | Refused(error: string)

  const NotEditable := "Element is not an input, textarea, select, or contenteditable element."

  /** What INPUT_TEXT does to one element, given the text `String(text ?? "")`. */
  function SetText(e: Element, nextText: string): (r: Edit)
  {
    match e
    case InputElement(t, _) =>
      var kind := Lower(t);
      if kind == "checkbox" || kind == "radio" then Refused("Input type '" + kind + "' does not accept text.")
      else if kind == "file" then Refused("Cannot set value for file inputs.")
      else Edited(InputElement(t, nextText))
    case TextAreaElement(_) => Edited(TextAreaElement(nextText))
    case SelectElement(_, options) =>
      (match ChooseOption(options, nextText)
       case None => Refused("Option not found for value/text: " + nextText)
       case Some(k) => Edited(SelectElement(options[k].value, options)))
    case EditableElement(_) => Edited(EditableElement(nextText))
    case OtherElement(_, _) => Refused(NotEditable)
  }

  predicate TakesText(e: Element) {
    || (e.InputElement? && Lower(e.inputType) !in {"checkbox", "radio", "file"})
    || e.TextAreaElement? || e.EditableElement?
  }

  /**
   * Text inputs, text areas and editable regions take the text as their new
   * value; checkbox, radio and file inputs (type compared lower-cased) and
   * non-editable elements refuse and keep their state.
   */
  lemma SetTextByKind(e: Element, nextText: string)
    ensures TakesText(e) ==> SetText(e, nextText) == Edited(
      match e
      case InputElement(t, _) => InputElement(t, nextText)
      case TextAreaElement(_) => TextAreaElement(nextText)
      case _ => EditableElement(nextText))
    ensures e.InputElement? && Lower(e.inputType) in {"checkbox", "radio", "file"} ==> SetText(e, nextText).Refused?
    ensures e.OtherElement? ==> SetText(e, nextText) == Refused(NotEditable)
    ensures SetText(e, nextText).Edited? <==> TakesText(e) || (e.SelectElement? && ChooseOption(e.options, nextText).Some?)
  {
  }

  /**
   * A select takes the value of the first option whose value is the text,
   * otherwise of the first option whose text is the text, and refuses when
   * there is neither.
   */
  lemma SelectChoosesValueThenText(value: string, options: seq<SelectOption>, t: string)
    ensures var r := SetText(SelectElement(value, options), t);
      && ((exists i :: 0 <= i < |options| && options[i].value == t) ==>
            exists i :: 0 <= i < |options| && options[i].value == t && r == Edited(SelectElement(t, options))
              && forall j :: 0 <= j < i ==> options[j].value != t)
      && ((forall i :: 0 <= i < |options| ==> options[i].value != t) ==>
            (r.Edited? <==> exists i :: 0 <= i < |options| && options[i].text == t))
      && ((forall i :: 0 <= i < |options| ==> options[i].value != t) && r.Edited? ==>
            exists i :: 0 <= i < |options| && options[i].text == t && r == Edited(SelectElement(options[i].value, options))
              && forall j :: 0 <= j < i ==> options[j].text != t)
      && (r.Refused? <==> forall i :: 0 <= i < |options| ==> options[i].value != t && options[i].text != t)
      && (r.Refused? ==> r.error == "Option not found for value/text: " + t)
  {
    var k := FirstWithValue(options, t);
    if k.Some? {
      assert options[k.value].value == t;
    } else if FirstWithText(options, t).Some? {
      var m := FirstWithText(options, t).value;
      assert options[m].text == t;
    }
  }

  /** The three-option example: the text "b" selects the second option. */
  lemma SelectSecondOption()
    ensures var options := [SelectOption("a", "A"), SelectOption("b", "B"), SelectOption("c", "C")];
      SetText(SelectElement("a", options), "b") == Edited(SelectElement("b", options))
  {
    var options := [SelectOption("a", "A"), SelectOption("b", "B"), SelectOption("c", "C")];
    assert options[1..][0].value == "b";
  }

  // ---------------------------------------------------------------------
  // The pure part of NAVIGATE_TO_URL.

  datatype UrlCheck = Allowed(target: string) | Blocked(error: string)

  function CheckUrl(url: Option<string>): (r: UrlCheck)
  {
    if url.None? || url.value == "" then Blocked("Missing url.")
    else
      var next := Trim(url.value);
      if next == "" then Blocked("Empty url.")
      else if StartsWithIgnoringCase(next, "javascript:") then Blocked("Blocked javascript: URL.")
      else Allowed(next)
  }

  /**
   * A URL is followed exactly when it is present, not blank after trimming,
   * and does not start with `javascript:` in any letter case; the target is
   * the trimmed URL.
   */
  lemma CheckUrlAllows(url: Option<string>)
    ensures CheckUrl(url).Allowed? <==>
      url.Some? && !AllSpace(url.value) && !StartsWithIgnoringCase(Trim(url.value), "javascript:")
    ensures CheckUrl(url).Allowed? ==> CheckUrl(url).target == Trim(url.value)
    ensures url.Some? && url.value != "" && AllSpace(url.value) ==> CheckUrl(url) == Blocked("Empty url.")
  {
    if url.Some? { TrimEmptyIff(url.value); }
  }

  /**
   * A `javascript:` URL is refused in any letter case, whatever white space
   * precedes it and whatever follows the scheme.
   */
  lemma ScriptUrlBlocked(pad: string, scheme: string, rest: string)
    requires AllSpace(pad) && Lower(scheme) == "javascript:"
    ensures CheckUrl(Some(pad + scheme + rest)) == Blocked("Blocked javascript: URL.")
  {
    var body := scheme + rest;
    assert pad + scheme + rest == pad + body;
    TrimLeading(pad, body);
    SchemeKeptByTrim(scheme, rest);
    ScriptPrefixBlocked(pad + body, scheme);
  }

  lemma ScriptPrefixBlocked(url: string, scheme: string)
    requires |Trim(url)| >= 11 && Trim(url)[..11] == scheme && Lower(scheme) == "javascript:"
    ensures CheckUrl(Some(url)) == Blocked("Blocked javascript: URL.")
  {
    assert url != "";
    assert Lower("javascript:") == "javascript:";
    assert StartsWithIgnoringCase(Trim(url), "javascript:");
  }

  /** Trimming `scheme + rest` keeps the scheme, whose first and last characters are not white space. */
  lemma SchemeKeptByTrim(scheme: string, rest: string)
    requires Lower(scheme) == "javascript:"
    ensures |Trim(scheme + rest)| >= 11 && Trim(scheme + rest)[..11] == scheme
  {
    SchemeEndsNotSpace(scheme);
    var body := scheme + rest;
    assert body[0] == scheme[0] && body[10] == scheme[10];
    assert TrimStart(body) == body;
    TrimEndKeeps(body, 10);
    assert body[..11] == scheme;
  }

  lemma SchemeEndsNotSpace(scheme: string)
    requires Lower(scheme) == "javascript:"
    ensures |scheme| == 11 && !IsJsSpace(scheme[0]) && !IsJsSpace(scheme[10])
  {
    assert Lower(scheme)[0] == 'j' && Lower(scheme)[10] == ':';
    LowerKeepsSpace(scheme[0]);
    LowerKeepsSpace(scheme[10]);
  }

  // ---------------------------------------------------------------------
  // Counting responses.

  function ResponseCount(effects: seq<Effect>): (n: nat)
    ensures n <= |effects|
  {
    if effects == [] then 0
    else ResponseCount(effects[..|effects| - 1]) + (if effects[|effects| - 1].Responded? then 1 else 0)
  }

  lemma {:induction false} ResponseCountAppend(a: seq<Effect>, b: seq<Effect>)
    ensures ResponseCount(a + b) == ResponseCount(a) + ResponseCount(b)
  {
    if b == [] {
      assert a + b == a;
    } else {
      var b' := b[..|b| - 1];
      assert (a + b)[..|a + b| - 1] == a + b';
      ResponseCountAppend(a, b');
    }
  }

  /** Some events, then exactly one response, as every recognised request produces. */
  predicate AnsweredOnce(effects: seq<Effect>) {
    && effects != []
    && effects[|effects| - 1].Responded?
    && forall i :: 0 <= i < |effects| - 1 ==> effects[i].Dispatched?
  }

  lemma {:induction false} EventsOnlyCount(effects: seq<Effect>)
    requires forall i :: 0 <= i < |effects| ==> effects[i].Dispatched?
    ensures ResponseCount(effects) == 0
  {
    if effects != [] { EventsOnlyCount(effects[..|effects| - 1]); }
  }

  lemma AnsweredOnceCount(effects: seq<Effect>)
    requires AnsweredOnce(effects)
    ensures ResponseCount(effects) == 1
  {
    EventsOnlyCount(effects[..|effects| - 1]);
  }

  /** `after` extends `before` by some events and then exactly one response. */
  predicate Answered(before: seq<Effect>, after: seq<Effect>) {
    |before| <= |after| && after[..|before|] == before && AnsweredOnce(after[|before|..])
  }

  /** An answered request adds one response to the count and navigates nowhere. */
  lemma AnsweredAddsOne(before: seq<Effect>, after: seq<Effect>)
    requires Answered(before, after)
    ensures ResponseCount(after) == ResponseCount(before) + 1
    ensures forall i :: |before| <= i < |after| ==> !after[i].Navigated?
  {
    var added := after[|before|..];
    assert after == before + added;
    ResponseCountAppend(before, added);
    AnsweredOnceCount(added);
    forall i | |before| <= i < |after| ensures !after[i].Navigated? {
      assert after[i] == added[i - |before|];
    }
  }

  /** Appending events and one response to a log answers it. */
  lemma AppendAnswers(before: seq<Effect>, events: seq<Effect>, response: Response)
    requires forall i :: 0 <= i < |events| ==> events[i].Dispatched?
    ensures Answered(before, before + events + [Responded(response)])
  {
    var after := before + events + [Responded(response)];
    assert after[..|before|] == before;
    assert after[|before|..] == events + [Responded(response)];
  }

  /** The document and the listener registered on it. */
  class PageAgent {
    var elements: seq<Element>
    const selectors: map<string, Query>
    var historyLength: nat
    const title: string
    const url: string
    const bodyText: string  // document.body.innerText
    var log: seq<Effect>
    var timers: seq<Navigation>

    ghost predicate Valid()
      reads this
    {
      WellFormed(elements, selectors)
    }

    constructor (elements: seq<Element>, selectors: map<string, Query>, historyLength: nat,
                 title: string, url: string, bodyText: string)
      requires WellFormed(elements, selectors)
      ensures Valid()
      ensures this.elements == elements && this.selectors == selectors && this.historyLength == historyLength
      ensures this.title == title && this.url == url && this.bodyText == bodyText
      ensures log == [] && timers == []
    {
      this.elements, this.selectors, this.historyLength := elements, selectors, historyLength;
      this.title, this.url, this.bodyText := title, url, bodyText;
      log, timers := [], [];
    }

    method Respond(response: Response)
      modifies this`log
      ensures log == old(log) + [Responded(response)]
      ensures Answered(old(log), log)
    {
      AppendAnswers(log, [], response);
      log := log + [Responded(response)];
    }

    /**
     * GET_PAGE_CONTENT: answers with the body, title and URL; when building
     * that answer fails with `failure`, answers with the body's text and the
     * error instead. There is no success flag either way.
     */
    method GetPageContent(failure: Option<string>)
      modifies this`log
      ensures log == old(log) + [Responded(
        if failure.None? then PageContent(BodyNode, title, url, None)
        else PageContent(FallbackText(bodyText), title, url, Some("Error: " + failure.value)))]
      ensures Answered(old(log), log)
    {
      if failure.None? {
        Respond(PageContent(BodyNode, title, url, None));
      } else {
        Respond(PageContent(FallbackText(bodyText), title, url, Some("Error: " + failure.value)));
      }
    }

    /**
     * CLICK_ELEMENT: a match that has a `click` method is clicked once and
     * answered with success; a match without one throws, which is answered
     * as an error like an invalid selector; no match is answered with an
     * error. Only a success clicks anything. A missing selector reaches
     * `querySelector` as "undefined".
     */
    method ClickElement(selector: Option<string>)
      requires Valid()
      modifies this`log
      ensures var s := selector.GetOr("undefined");
        match Resolve(selectors, s)
        case Matches(k) =>
          if HasClick(elements[k]) then log == old(log) + [Dispatched(k, ClickEvent), Responded(Ok)]
          else log == old(log) + [Responded(Failed("Invalid selector or error: " + NoClickMethod))]
        case NoMatch => log == old(log) + [Responded(Failed("Element not found: " + s))]
        case Throws(m) => log == old(log) + [Responded(Failed("Invalid selector or error: " + m))]
      ensures Answered(old(log), log)
    {
      var s := selector.GetOr("undefined");
      match Resolve(selectors, s) {
        case Throws(m) =>
          Respond(Failed("Invalid selector or error: " + m));
        case NoMatch =>
          Respond(Failed("Element not found: " + s));
        case Matches(k) =>
          if !HasClick(elements[k]) {
            Respond(Failed("Invalid selector or error: " + NoClickMethod));
            return;
          }
          AppendAnswers(log, [Dispatched(k, ClickEvent)], Ok);
          log := log + [Dispatched(k, ClickEvent)];
          Respond(Ok);
      }
    }

    /** `dispatchInputEvents`: an `input` event, then a `change` event. */
    method DispatchInputEvents(target: nat)
      modifies this`log
      ensures log == old(log) + [Dispatched(target, InputEvent), Dispatched(target, ChangeEvent)]
    {
      log := log + [Dispatched(target, InputEvent)];
      log := log + [Dispatched(target, ChangeEvent)];
    }

    /**
     * INPUT_TEXT. On success the element's new state is `SetText`'s, an
     * `input` and then a `change` event are dispatched to it, and success is
     * answered; on every failure the elements are untouched, no event is
     * dispatched and one error is answered.
     */
    method InputText(selector: Option<string>, text: Option<string>)
      requires Valid()
      modifies this`elements, this`log
      ensures Valid() && |elements| == |old(elements)|
      ensures selector.None? || selector.value == "" ==>
        elements == old(elements) && log == old(log) + [Responded(Failed("Missing selector."))]
      ensures selector.Some? && selector.value != "" ==>
        match Resolve(selectors, selector.value)
        case Throws(m) =>
          elements == old(elements) && log == old(log) + [Responded(Failed("Invalid selector or error: " + m))]
        case NoMatch =>
          elements == old(elements) && log == old(log) + [Responded(Failed("Element not found: " + selector.value))]
        case Matches(k) =>
          match SetText(old(elements)[k], text.GetOr(""))
          case Refused(err) =>
            elements == old(elements) && log == old(log) + [Responded(Failed(err))]
          case Edited(e) =>
            && elements == old(elements)[k := e]
            && log == old(log) + [Dispatched(k, InputEvent), Dispatched(k, ChangeEvent), Responded(Ok)]
      ensures Answered(old(log), log)
    {
      if selector.None? || selector.value == "" {
        Respond(Failed("Missing selector."));
        return;
      }
      var s := selector.value;
      var k;
      match Resolve(selectors, s) {
        case Throws(m) =>
          Respond(Failed("Invalid selector or error: " + m));
          return;
        case NoMatch =>
          Respond(Failed("Element not found: " + s));
          return;
        case Matches(j) =>
          k := j;
      }
      var nextText := text.GetOr("");
      var edit := WriteText(k, nextText);
      if edit.Refused? {
        Respond(Failed(edit.error));
        return;
      }
      AppendAnswers(log, [Dispatched(k, InputEvent), Dispatched(k, ChangeEvent)], Ok);
      DispatchInputEvents(k);
      Respond(Ok);
    }

    /**
     * The element-kind dispatch of INPUT_TEXT: write the text into element
     * `k` as its kind demands, or report why it cannot take it.
     */
    method WriteText(k: nat, nextText: string) returns (edit: Edit)
      requires k < |elements|
      modifies this`elements
      ensures edit == SetText(old(elements)[k], nextText)
      ensures elements == if edit.Edited? then old(elements)[k := edit.element] else old(elements)
    {
      match elements[k] {
        case InputElement(t, _) =>
          var kind := Lower(t);
          if kind == "checkbox" || kind == "radio" {
            return Refused("Input type '" + kind + "' does not accept text.");
          }
          if kind == "file" {
            return Refused("Cannot set value for file inputs.");
          }
          edit := Edited(InputElement(t, nextText));
        case TextAreaElement(_) =>
          edit := Edited(TextAreaElement(nextText));
        case SelectElement(_, options) =>
          var choice := ChooseOption(options, nextText);
          if choice.None? {
            return Refused("Option not found for value/text: " + nextText);
          }
          edit := Edited(SelectElement(options[choice.value].value, options));
        case EditableElement(_) =>
          edit := Edited(EditableElement(nextText));
        case OtherElement(_, _) =>
          return Refused(NotEditable);
      }
      elements := elements[k := edit.element];
    }

    /**
     * GO_BACK: with at most one history entry it fails and schedules
     * nothing; otherwise success is answered first and `history.back()` is
     * queued to run afterwards.
     */
    method GoBack()
      modifies this`log, this`timers
      ensures historyLength <= 1 ==>
        log == old(log) + [Responded(Failed("No history entry to navigate back to."))] && timers == old(timers)
      ensures historyLength > 1 ==>
        log == old(log) + [Responded(Ok)] && timers == old(timers) + [Back]
      ensures Answered(old(log), log)
    {
      if historyLength <= 1 {
        Respond(Failed("No history entry to navigate back to."));
        return;
      }
      Respond(Ok);
      timers := timers + [Back];
    }

    /**
     * NAVIGATE_TO_URL: refused URLs are answered with their error and
     * schedule nothing; an allowed URL is answered with success first, and
     * navigation to the trimmed URL is queued to run afterwards.
     */
    method NavigateToUrl(target: Option<string>)
      modifies this`log, this`timers
      ensures match CheckUrl(target)
        case Blocked(err) => log == old(log) + [Responded(Failed(err))] && timers == old(timers)
        case Allowed(next) => log == old(log) + [Responded(Ok)] && timers == old(timers) + [Assign(next)]
      ensures Answered(old(log), log)
    {
      if target.None? || target.value == "" {
        Respond(Failed("Missing url."));
        return;
      }
      var nextUrl := Trim(target.value);
      if nextUrl == "" {
        Respond(Failed("Empty url."));
        return;
      }
      if StartsWithIgnoringCase(nextUrl, "javascript:") {
        Respond(Failed("Blocked javascript: URL."));
        return;
      }
      Respond(Ok);
      timers := timers + [Assign(nextUrl)];
    }

    /** The event loop runs the oldest pending timer: the navigation happens now. */
    method FireTimer()
      requires timers != []
      modifies this`log, this`timers
      ensures log == old(log) + [Navigated(old(timers)[0])]
      ensures timers == old(timers)[1..]
    {
      log := log + [Navigated(timers[0])];
      timers := timers[1..];
    }

    /**
     * The `onMessage` listener. Every recognised request is answered exactly
     * once and an unrecognised one not at all; only INPUT_TEXT writes to
     * elements, only GO_BACK and NAVIGATE_TO_URL schedule navigation, and no
     * navigation happens inside the listener. Returns the listener's result:
     * true (keep the channel open) only for the asynchronous page read.
     */
    method OnMessage(request: Request, readFailure: Option<string>) returns (keepOpen: bool)
      requires Valid()
      modifies this`elements, this`log, this`timers
      ensures Valid()
      ensures keepOpen <==> request.GetPageContent?
      ensures ResponseCount(log) == ResponseCount(old(log)) + (if request.Unrecognised? then 0 else 1)
      ensures |log| >= |old(log)| && log[..|old(log)|] == old(log)
      ensures forall i :: |old(log)| <= i < |log| ==> !log[i].Navigated?
      ensures !request.InputText? ==> elements == old(elements)
      ensures !(request.GoBack? || request.NavigateToUrl?) ==> timers == old(timers)
      ensures timers == old(timers) || (|timers| == |old(timers)| + 1 && timers[..|old(timers)|] == old(timers))
    {
      ghost var before := log;
      keepOpen := false;
      match request {
        case GetPageContent =>
          GetPageContent(readFailure);
          keepOpen := true;
        case ClickElement(selector) =>
          ClickElement(selector);
        case InputText(selector, text) =>
          InputText(selector, text);
        case GoBack =>
          GoBack();
        case NavigateToUrl(target) =>
          NavigateToUrl(target);
        case Unrecognised(_) =>
      }
      if !request.Unrecognised? {
        AnsweredAddsOne(before, log);
      }
    }
  }
}
