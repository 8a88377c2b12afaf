/** What one call of the send handler does, start to finish, as a value
    (App.tsx:180-265): the actions dispatched to the chat store, the requests
    made to the generation stream, the pages the browser agent is sent to, and
    the state left behind. The stream and the browser service are inputs: a
    `Turn` lists the events one stream yields, how it ends, and — if the answer
    carries a navigation directive — what page extraction returns, which may
    itself start the next hop. */
module Orchestrator {
  import opened Types
  import opened Text
  import opened Directive
  import opened LiveBuffer
  import opened EventFold

  /** A thrown value: an `Error` with its name and message, or anything else. */
  datatype Thrown = ErrorObject(name: string, message: string) | NonError

  datatype StreamEnd = Exhausted | Threw(error: Thrown)

  /** The identifiers `uuidv4()` hands out during one hop. */
  datatype Ids = Ids(user: string, thinking: string, nav: string, navError: string)

  /** One hop: the stream's events, how the stream ended and the outcome of
      page extraction (consulted only when the hop navigates). */
  datatype Turn = Turn(ids: Ids, events: seq<Event>, end: StreamEnd, extraction: Extraction)

  /** `navigateAndExtract` threw, returned empty html, or returned a page whose
      body text is given; a page starts the next hop. */
  datatype Extraction =
    | ExtractThrew(error: Thrown)
    | ExtractEmpty
    | ExtractPage(textContent: string, next: Turn)

  /** The values the handler captured when it was created and that every hop
      of the chain reuses: the active chat, the files on show, the view and
      the selected elements. */
  datatype Closure = Closure(chat: Chat, files: seq<File>, view: View, selected: seq<SelectedElement>)

  /** The arguments of one `generateHtmlStream` call that the handler varies. */
  datatype StreamRequest = StreamRequest(
    prompt: string, image: Option<UploadedImage>, files: seq<File>, selected: seq<SelectedElement>, view: View)

  /** Everything a chain of hops leaves behind. `stuck` is the final loading
      flag, `buffer` the final live generation buffer and `pushed` whether the
      last hop pushed a snapshot (which also drops the editing overlay). */
  datatype Effects = Effects(
    actions: seq<Action>,
    requests: seq<StreamRequest>,
    navigations: seq<string>,
    stuck: bool,
    buffer: seq<LiveFile>,
    pushed: bool)

  /** `selectedElements.map(el => el.html).join('\n')`. */
  function JoinHtml(s: seq<SelectedElement>): (r: string)
    ensures s == [] ==> r == []
    ensures |s| == 1 ==> r == s[0].html
    ensures s != [] ==> |s[0].html| <= |r| && r[..|s[0].html|] == s[0].html
  {
    if s == [] then ""
    else if |s| == 1 then s[0].html
    else s[0].html + "\n" + JoinHtml(s[1..])
  }

  /** Joining one more element adds a newline and its html at the end. */
  lemma {:induction false} JoinHtmlSnoc(s: seq<SelectedElement>, e: SelectedElement)
    requires s != []
    ensures JoinHtml(s + [e]) == JoinHtml(s) + "\n" + e.html
    decreases |s|
  {
    var t := s + [e];
    assert t[0] == s[0];
    if |s| == 1 {
      assert t[1..] == [e];
    } else {
      assert t[1..] == s[1..] + [e];
      JoinHtmlSnoc(s[1..], e);
      AppendAssoc(s[0].html + "\n", JoinHtml(s[1..]), "\n" + e.html);
      AppendAssoc(s[0].html + "\n" + JoinHtml(s[1..]), "\n", e.html);
      AppendAssoc(s[0].html + "\n" + JoinHtml(s[1..]) + "\n", [], e.html);
    }
  }

  /** The user's message: the prompt, the image, and the selected elements'
      html when there are any. */
  function UserMessage(id: string, prompt: string, image: Option<UploadedImage>, selected: seq<SelectedElement>): (r: Message)
    ensures r.id == id && r.role == User && r.content == prompt && r.image == image
    ensures r.elementHtml.Some? <==> selected != []
    ensures r.elementHtml.Some? ==> r.elementHtml.value == JoinHtml(selected)
    ensures r.isThinking.None? && r.isStreaming.None? && r.files.None?
  {
    Message(id, User, prompt, image, if |selected| > 0 then Some(JoinHtml(selected)) else None,
            None, None, None, None, None)
  }

  const ThinkingPlaceholder: string := "..."

  /** The model's placeholder, shown as thinking and streaming. */
  function ThinkingMessage(id: string): (r: Message)
    ensures r.id == id && r.role == Model && r.content == ThinkingPlaceholder
    ensures r.isThinking == Some(true) && r.isStreaming == Some(true)
  {
    Message(id, Model, ThinkingPlaceholder, None, None, Some(true), Some(true), None, None, None)
  }

  const NavPrefix: string := "Navigating to "

  /** The system notice of a navigation, naming the address. */
  function NavMessage(id: string, url: string): (r: Message)
    ensures r.id == id && r.role == System
    ensures r.content == NavPrefix + url + "..."
    ensures r.content[|NavPrefix|..|NavPrefix| + |url|] == url
  {
    Message(id, System, NavPrefix + url + "...", None, None, None, None, None, None, None)
  }

  const NavFailedPrefix: string := "Navigation failed: "
  const UnknownNavError: string := "An unknown navigation error occurred."

  /** The system notice of a failed extraction: the error's message, or a
      fixed text when the thrown value is not an `Error`. */
  function NavFailedMessage(id: string, e: Thrown): (r: Message)
    ensures r.id == id && r.role == System
    ensures r.content == NavFailedPrefix + (if e.ErrorObject? then e.message else UnknownNavError)
  {
    Message(id, System, NavFailedPrefix + (if e.ErrorObject? then e.message else UnknownNavError),
            None, None, None, None, None, None, None)
  }

  const Stopped: string := "Generation stopped."
  const ErrorPrefix: string := "Sorry, I encountered an error: "
  const UnknownError: string := "An unknown error."

  /** The answer shown when the stream fails. */
  function StreamErrorText(e: Thrown): (r: string)
    ensures r == Stopped <==> e.ErrorObject? && e.name == "AbortError"
    ensures r != Stopped ==> r == ErrorPrefix + (if e.ErrorObject? then e.message else UnknownError)
  {
    if e.ErrorObject? && e.name == "AbortError" then Stopped
    else
      var r := ErrorPrefix + (if e.ErrorObject? then e.message else UnknownError);
      assert r[0] != Stopped[0];
      r
  }

  /** The hop acts on a directive: the stream finished, the view is the browser
      agent and the answer names a page. */
  predicate Navigates(c: Closure, t: Turn) {
    t.end.Exhausted? && c.view == Browser && FindDirective(Accumulate(t.events).content).Some?
  }

  /** What a hop does once its stream has ended: the actions after the plans,
      the page it navigates to, whether it leaves the loading flag set and
      whether it pushes a snapshot. */
  datatype Tail = Tail(actions: seq<Action>, navigations: seq<string>, stuck: bool, pushed: bool)

  /** The end of one hop, after the stream loop: `FINISH_STREAMING`, then
      either the navigation notice and a reported extraction failure, or the
      push of the final files. */
  function HopTail(c: Closure, user: Message, thinking: Message, t: Turn): (r: Tail)
    ensures r.navigations == if Navigates(c, t) then [FindDirective(Accumulate(t.events).content).value] else []
    ensures r.stuck == Navigates(c, t)
    ensures r.pushed <==> t.end.Exhausted? && !Navigates(c, t) && Accumulate(t.events).files != []
    ensures r.actions != []
    ensures t.end.Exhausted? ==>
              var acc := Accumulate(t.events);
              r.actions[0] == FinishStreaming(acc.content, acc.files, Some(acc.grounding))
    ensures Navigates(c, t) ==>
              && |r.actions| >= 2
              && r.actions[1] == UpdateMessages(c.chat.messages + [user, thinking,
                   NavMessage(t.ids.nav, FindDirective(Accumulate(t.events).content).value)])
    ensures Navigates(c, t) && t.extraction.ExtractThrew? ==>
              && |r.actions| == 3
              && r.actions[2] == UpdateMessages(c.chat.messages + [user, thinking,
                   NavFailedMessage(t.ids.navError, t.extraction.error)])
    ensures t.end.Threw? ==> r.actions == [FinishStreaming(StreamErrorText(t.end.error), [], None)]
    // Nothing else is dispatched: the finish, the notice, a reported failure and the push.
    ensures |r.actions| == 1 + (if Navigates(c, t) then 1 + (if t.extraction.ExtractThrew? then 1 else 0) else 0)
                             + (if r.pushed then 1 else 0)
  {
    match t.end
    case Threw(e) =>
      Tail([FinishStreaming(StreamErrorText(e), [], None)], [], false, false)
    case Exhausted =>
      var acc := Accumulate(t.events);
      var fin := FinishStreaming(acc.content, acc.files, Some(acc.grounding));
      var url := FindDirective(acc.content);
      if c.view == Browser && url.Some? then
        var nav := UpdateMessages(c.chat.messages + [user, thinking, NavMessage(t.ids.nav, url.value)]);
        match t.extraction
        case ExtractThrew(e) =>
          var failed := UpdateMessages(c.chat.messages + [user, thinking, NavFailedMessage(t.ids.navError, e)]);
          Tail([fin, nav, failed], [url.value], true, false)
        case _ =>
          Tail([fin, nav], [url.value], true, false)
      else if |acc.files| > 0 then
        Tail([fin, PushToHistory(HistoryState(acc.files))], [], false, true)
      else
        Tail([fin], [], false, false)
  }

  /** The effects of one hop on its own: what the handler does before the
      recursive call or instead of it. A hop that navigates leaves the loading
      flag set; the next hop, if any, decides the final one. */
  function HopEffects(c: Closure, prompt: string, image: Option<UploadedImage>, t: Turn): (r: Effects)
    ensures r.requests == [StreamRequest(prompt, image, c.files, c.selected, c.view)]
    ensures r.navigations == if Navigates(c, t) then [FindDirective(Accumulate(t.events).content).value] else []
    ensures r.stuck == Navigates(c, t)
    ensures r.buffer == BufferOf(t.events)
  {
    var user := UserMessage(t.ids.user, prompt, image, c.selected);
    var thinking := ThinkingMessage(t.ids.thinking);
    var started := [UpdateMessages(c.chat.messages + [user, thinking])] + PlanActions(t.events);
    var tail := HopTail(c, user, thinking, t);
    Effects(started + tail.actions, [StreamRequest(prompt, image, c.files, c.selected, c.view)],
            tail.navigations, tail.stuck, BufferOf(t.events), tail.pushed)
  }

  /** The hop fetches a page and continues with it. */
  predicate Continues(c: Closure, t: Turn) {
    Navigates(c, t) && t.extraction.ExtractPage?
  }

  /** The effects of one hop followed by those of the rest of the chain: the
      logs are concatenated and the rest decides the final state. */
  function Then(own: Effects, rest: Effects): Effects {
    Effects(own.actions + rest.actions, own.requests + rest.requests, own.navigations + rest.navigations,
            rest.stuck, rest.buffer, rest.pushed)
  }

  /** The effects of the chain of hops starting with `t`: a hop whose
      extraction gave a page is followed by the hop of the continuation
      prompt, with no image, under the same closure. */
  function Chain(c: Closure, prompt: string, image: Option<UploadedImage>, t: Turn): (r: Effects)
    decreases t
    ensures r.requests != [] && r.requests[0] == StreamRequest(prompt, image, c.files, c.selected, c.view)
  {
    var own := HopEffects(c, prompt, image, t);
    if Continues(c, t) then Then(own, Chain(c, ContinuationPrompt(t.extraction.textContent), None, t.extraction.next))
    else own
  }

  /** A hop that continues contributes its own effects first; the rest of
      the chain decides the final state. */
  lemma ChainStep(c: Closure, prompt: string, image: Option<UploadedImage>, t: Turn)
    requires Continues(c, t)
    ensures Chain(c, prompt, image, t)
            == Then(HopEffects(c, prompt, image, t), Chain(c, ContinuationPrompt(t.extraction.textContent), None, t.extraction.next))
  {
  }

  /** A hop that does not continue is the whole chain. */
  lemma ChainStop(c: Closure, prompt: string, image: Option<UploadedImage>, t: Turn)
    requires !Continues(c, t)
    ensures Chain(c, prompt, image, t) == HopEffects(c, prompt, image, t)
  {
  }

  /** Every hop makes one request; every hop but a final stuck one navigates. */
  lemma {:induction false} RequestsPerHop(c: Closure, prompt: string, image: Option<UploadedImage>, t: Turn)
    ensures var eff := Chain(c, prompt, image, t);
            |eff.requests| == |eff.navigations| + (if eff.stuck then 0 else 1)
    decreases t
  {
    if Continues(c, t) {
      RequestsPerHop(c, ContinuationPrompt(t.extraction.textContent), None, t.extraction.next);
    }
  }

  /** Every request carries the captured files, selection and view. */
  predicate UsesClosure(c: Closure, rs: seq<StreamRequest>) {
    forall k :: 0 <= k < |rs| ==> rs[k].files == c.files && rs[k].selected == c.selected && rs[k].view == c.view
  }

  /** Every request carries a continuation prompt and no image. */
  predicate AllContinuations(rs: seq<StreamRequest>) {
    forall k :: 0 <= k < |rs| ==> IsContinuation(rs[k].prompt) && rs[k].image.None?
  }

  lemma RequestsConcat(c: Closure, a: seq<StreamRequest>, b: seq<StreamRequest>)
    ensures UsesClosure(c, a) && UsesClosure(c, b) ==> UsesClosure(c, a + b)
    ensures AllContinuations(a) && AllContinuations(b) ==> AllContinuations(a + b)
  {
    if UsesClosure(c, a) && UsesClosure(c, b) {
      forall k | 0 <= k < |a + b|
        ensures (a + b)[k].files == c.files && (a + b)[k].selected == c.selected && (a + b)[k].view == c.view
      {
        if k < |a| { assert (a + b)[k] == a[k]; } else { assert (a + b)[k] == b[k - |a|]; }
      }
    }
    if AllContinuations(a) && AllContinuations(b) {
      forall k | 0 <= k < |a + b| ensures IsContinuation((a + b)[k].prompt) && (a + b)[k].image.None? {
        if k < |a| { assert (a + b)[k] == a[k]; } else { assert (a + b)[k] == b[k - |a|]; }
      }
    }
  }

  /** Every request carries the captured files, selection and view; the first
      carries the given prompt and image, each later one a continuation
      prompt and no image. */
  predicate RequestShape(c: Closure, prompt: string, image: Option<UploadedImage>, rs: seq<StreamRequest>) {
    && |rs| >= 1
    && rs[0].prompt == prompt && rs[0].image == image
    && UsesClosure(c, rs)
    && AllContinuations(rs[1..])
  }

  /** One request followed by the requests of a continuation keeps the shape. */
  lemma RequestShapeThen(c: Closure, prompt: string, image: Option<UploadedImage>,
                         own: seq<StreamRequest>, p: string, rest: seq<StreamRequest>)
    requires |own| == 1 && RequestShape(c, prompt, image, own)
    requires IsContinuation(p) && RequestShape(c, p, None, rest)
    ensures RequestShape(c, prompt, image, own + rest)
  {
    RequestsConcat(c, own, rest);
    assert AllContinuations([rest[0]]);
    RequestsConcat(c, [rest[0]], rest[1..]);
    assert [rest[0]] + rest[1..] == rest;
    assert (own + rest)[1..] == rest;
  }

  /** Every request of the chain carries the captured files, selection and
      view; the first carries the caller's prompt and image, each later one a
      continuation prompt and no image. */
  lemma {:induction false} RequestsUseClosure(c: Closure, prompt: string, image: Option<UploadedImage>, t: Turn)
    ensures RequestShape(c, prompt, image, Chain(c, prompt, image, t).requests)
    decreases t
  {
    var own := HopEffects(c, prompt, image, t);
    assert own.requests[1..] == [];
    assert RequestShape(c, prompt, image, own.requests);
    if Continues(c, t) {
      var p := ContinuationPrompt(t.extraction.textContent);
      RequestsUseClosure(c, p, None, t.extraction.next);
      ChainStep(c, prompt, image, t);
      RequestShapeThen(c, prompt, image, own.requests, p, Chain(c, p, None, t.extraction.next).requests);
    } else {
      ChainStop(c, prompt, image, t);
    }
  }

  /** Outside the browser view nothing is navigated, the loading flag is
      cleared and exactly one request is made. */
  lemma NoNavigationOutsideBrowser(c: Closure, prompt: string, image: Option<UploadedImage>, t: Turn)
    requires c.view != Browser
    ensures var eff := Chain(c, prompt, image, t);
            eff.navigations == [] && !eff.stuck && |eff.requests| == 1
  {
  }

  predicate ValidTargets(ns: seq<string>) {
    forall k :: 0 <= k < |ns| ==> ns[k] != [] && QuoteFree(ns[k])
  }

  lemma ValidTargetsConcat(a: seq<string>, b: seq<string>)
    requires ValidTargets(a) && ValidTargets(b)
    ensures ValidTargets(a + b)
  {
    forall k | 0 <= k < |a + b| ensures (a + b)[k] != [] && QuoteFree((a + b)[k]) {
      if k < |a| { assert (a + b)[k] == a[k]; } else { assert (a + b)[k] == b[k - |a|]; }
    }
  }

  /** Every page visited is a non-empty address without `"`. */
  lemma {:induction false} NavigationTargets(c: Closure, prompt: string, image: Option<UploadedImage>, t: Turn)
    ensures ValidTargets(Chain(c, prompt, image, t).navigations)
    decreases t
  {
    var own := HopEffects(c, prompt, image, t).navigations;
    assert ValidTargets(own);
    if Continues(c, t) {
      var p := ContinuationPrompt(t.extraction.textContent);
      NavigationTargets(c, p, None, t.extraction.next);
      ChainStep(c, prompt, image, t);
      ValidTargetsConcat(own, Chain(c, p, None, t.extraction.next).navigations);
    }
  }

  /** The actions a hop starts with: the user message and thinking
      placeholder, then the plans announced by the stream. */
  lemma StartedActions(c: Closure, prompt: string, image: Option<UploadedImage>, t: Turn)
    ensures var acts := HopEffects(c, prompt, image, t).actions;
            var started := [UpdateMessages(c.chat.messages + [UserMessage(t.ids.user, prompt, image, c.selected),
                                                               ThinkingMessage(t.ids.thinking)])]
                           + PlanActions(t.events);
            |acts| > |started| && acts[..|started|] == started
  {
  }

  /** No action but possibly the last is a push. */
  predicate PushesOnlyLast(acts: seq<Action>) {
    forall k :: 0 <= k < |acts| - 1 ==> !acts[k].PushToHistory?
  }

  lemma PushesConcat(a: seq<Action>, b: seq<Action>)
    requires PushesOnlyLast(a) && a != [] && !a[|a| - 1].PushToHistory?
    requires PushesOnlyLast(b) && b != []
    ensures PushesOnlyLast(a + b) && (a + b)[|a + b| - 1] == b[|b| - 1]
  {
    forall k | 0 <= k < |a + b| - 1 ensures !(a + b)[k].PushToHistory? {
      if k < |a| { assert (a + b)[k] == a[k]; } else { assert (a + b)[k] == b[k - |a|]; }
    }
  }

  /** The end of a hop pushes at most once, as its last action, and the push
      holds the final files. */
  lemma TailPush(c: Closure, user: Message, thinking: Message, t: Turn)
    ensures var tl := HopTail(c, user, thinking, t);
            && tl.actions != []
            && PushesOnlyLast(tl.actions)
            && (tl.pushed <==> tl.actions[|tl.actions| - 1].PushToHistory?)
            && (tl.pushed ==> tl.actions[|tl.actions| - 1] == PushToHistory(HistoryState(Accumulate(t.events).files)))
  {
  }

  /** Within a hop, a push can only be the last action; it happens exactly
      when the hop neither failed nor navigated and its files are non-empty. */
  lemma HopPush(c: Closure, prompt: string, image: Option<UploadedImage>, t: Turn)
    ensures var eff := HopEffects(c, prompt, image, t);
            && |eff.actions| >= 2
            && PushesOnlyLast(eff.actions)
            && (eff.pushed <==> eff.actions[|eff.actions| - 1].PushToHistory?)
            && (eff.pushed <==> t.end.Exhausted? && !Navigates(c, t) && Accumulate(t.events).files != [])
            && (eff.pushed ==> eff.actions[|eff.actions| - 1] == PushToHistory(HistoryState(Accumulate(t.events).files)))
  {
    var user := UserMessage(t.ids.user, prompt, image, c.selected);
    var thinking := ThinkingMessage(t.ids.thinking);
    var plans := PlanActions(t.events);
    var started := [UpdateMessages(c.chat.messages + [user, thinking])] + plans;
    PlanActionsArePlans(t.events);
    forall k | 0 <= k < |started| ensures !started[k].PushToHistory? {
      if k >= 1 {
        assert started[k] == plans[k - 1];
      }
    }
    TailPush(c, user, thinking, t);
    PushesConcat(started, HopTail(c, user, thinking, t).actions);
  }

  /** Only a hop that does not navigate pushes a snapshot: the push is the last
      action of the whole chain, holds a non-empty file list, and leaves the
      loading flag cleared; no push appears anywhere else. */
  lemma {:induction false} PushOnlyLast(c: Closure, prompt: string, image: Option<UploadedImage>, t: Turn)
    ensures PushShape(Chain(c, prompt, image, t))
    decreases t
  {
    var own := HopEffects(c, prompt, image, t);
    HopPush(c, prompt, image, t);
    assert PushShape(own);
    if Continues(c, t) {
      var p := ContinuationPrompt(t.extraction.textContent);
      var rest := Chain(c, p, None, t.extraction.next);
      PushOnlyLast(c, p, None, t.extraction.next);
      ChainStep(c, prompt, image, t);
      PushShapeThen(own, rest);
    } else {
      ChainStop(c, prompt, image, t);
    }
  }

  /** A hop that pushes nothing followed by a well-shaped rest is well shaped. */
  lemma PushShapeThen(own: Effects, rest: Effects)
    requires PushShape(own) && !own.pushed && PushShape(rest)
    ensures PushShape(Then(own, rest))
  {
    PushesConcat(own.actions, rest.actions);
  }

  /** At least the opening and the finish are dispatched; no action but the
      last is a push; the last is a push exactly when the effects say a
      snapshot was pushed, and then its files are non-empty and loading ended. */
  predicate PushShape(eff: Effects) {
    && |eff.actions| >= 2
    && PushesOnlyLast(eff.actions)
    && (eff.pushed <==> eff.actions[|eff.actions| - 1].PushToHistory?)
    && (eff.pushed ==> !eff.stuck && eff.actions[|eff.actions| - 1].state.files != [])
  }

  /** Outside a navigation, a finished stream pushes a snapshot exactly when
      its last `result` carried files, and that snapshot holds those files. */
  lemma PushExactlyWithFiles(c: Closure, prompt: string, image: Option<UploadedImage>, t: Turn)
    requires t.end.Exhausted? && !Navigates(c, t)
    ensures var eff := Chain(c, prompt, image, t);
            var files := Accumulate(t.events).files;
            && (eff.pushed <==> files != [])
            && (eff.pushed ==> eff.actions[|eff.actions| - 1] == PushToHistory(HistoryState(files)))
            && !eff.stuck && eff.navigations == []
  {
    HopPush(c, prompt, image, t);
  }

  /** A failed stream ends its hop with `FINISH_STREAMING` carrying the error
      text and no files; nothing is pushed or navigated and loading ends. */
  lemma StreamFailure(c: Closure, prompt: string, image: Option<UploadedImage>, t: Turn)
    requires t.end.Threw?
    ensures var eff := Chain(c, prompt, image, t);
            && eff.actions[|eff.actions| - 1] == FinishStreaming(StreamErrorText(t.end.error), [], None)
            && !eff.pushed && !eff.stuck && eff.navigations == [] && |eff.requests| == 1
  {
  }

  /** A navigation whose extraction throws or yields no html leaves the
      loading flag set; a throw is reported after the navigation notice. */
  lemma FailedExtractionKeepsLoading(c: Closure, prompt: string, image: Option<UploadedImage>, t: Turn)
    requires Navigates(c, t) && !t.extraction.ExtractPage?
    ensures var eff := Chain(c, prompt, image, t);
            && eff.stuck && !eff.pushed
            && eff.navigations == [FindDirective(Accumulate(t.events).content).value]
            && (t.extraction.ExtractThrew? ==>
                  eff.actions[|eff.actions| - 1]
                  == UpdateMessages(c.chat.messages + [UserMessage(t.ids.user, prompt, image, c.selected),
                                                       ThinkingMessage(t.ids.thinking),
                                                       NavFailedMessage(t.ids.navError, t.extraction.error)]))
  {
  }

  /** The last hop of the chain navigated without getting a page. */
  predicate EndsInFailedExtraction(c: Closure, t: Turn)
    decreases t
  {
    Navigates(c, t) && (!t.extraction.ExtractPage? || EndsInFailedExtraction(c, t.extraction.next))
  }

  /** The loading flag stays set at the end exactly when the chain ends in a
      navigation whose extraction gave no page. */
  lemma {:induction false} StuckOnlyAfterFailedExtraction(c: Closure, prompt: string, image: Option<UploadedImage>, t: Turn)
    ensures Chain(c, prompt, image, t).stuck <==> EndsInFailedExtraction(c, t)
    decreases t
  {
    if Continues(c, t) {
      StuckOnlyAfterFailedExtraction(c, ContinuationPrompt(t.extraction.textContent), None, t.extraction.next);
    }
  }

  /** Number of `FINISH_STREAMING` actions. */
  function Finishes(acts: seq<Action>): nat {
    if acts == [] then 0 else (if acts[0].FinishStreaming? then 1 else 0) + Finishes(acts[1..])
  }

  lemma {:induction false} FinishesConcat(a: seq<Action>, b: seq<Action>)
    ensures Finishes(a + b) == Finishes(a) + Finishes(b)
    decreases |a|
  {
    if a == [] {
      assert a + b == b;
    } else {
      assert (a + b)[0] == a[0];
      assert (a + b)[1..] == a[1..] + b;
      FinishesConcat(a[1..], b);
    }
  }

  lemma {:induction false} NoFinishesInPlans(evs: seq<Event>)
    ensures Finishes(PlanActions(evs)) == 0
    decreases |evs|
  {
    if evs != [] {
      var e := evs[|evs| - 1];
      NoFinishesInPlans(evs[..|evs| - 1]);
      FinishesConcat(PlanActions(evs[..|evs| - 1]), if e.AgentPlanEvent? then [SetAgentPlan(e.plan)] else []);
    }
  }

  lemma FinishesOfOne(a: Action)
    ensures Finishes([a]) == if a.FinishStreaming? then 1 else 0
  {
    assert [a][1..] == [];
  }

  lemma {:induction false} NoFinishes(acts: seq<Action>)
    requires forall k :: 0 <= k < |acts| ==> !acts[k].FinishStreaming?
    ensures Finishes(acts) == 0
    decreases |acts|
  {
    if acts != [] {
      assert forall k :: 0 <= k < |acts[1..]| ==> acts[1..][k] == acts[k + 1];
      NoFinishes(acts[1..]);
    }
  }

  /** The end of a hop holds exactly one `FINISH_STREAMING`, its first action. */
  lemma TailFinishesOnce(c: Closure, user: Message, thinking: Message, t: Turn)
    ensures var acts := HopTail(c, user, thinking, t).actions;
            acts != [] && acts[0].FinishStreaming? && Finishes(acts) == 1
  {
    var acts := HopTail(c, user, thinking, t).actions;
    assert forall k :: 1 <= k < |acts| ==> !acts[k].FinishStreaming?;
    assert forall k :: 0 <= k < |acts[1..]| ==> acts[1..][k] == acts[k + 1];
    NoFinishes(acts[1..]);
  }

  /** A hop dispatches exactly one `FINISH_STREAMING`. */
  lemma HopFinishesOnce(c: Closure, prompt: string, image: Option<UploadedImage>, t: Turn)
    ensures Finishes(HopEffects(c, prompt, image, t).actions) == 1
  {
    var user := UserMessage(t.ids.user, prompt, image, c.selected);
    var thinking := ThinkingMessage(t.ids.thinking);
    var head := UpdateMessages(c.chat.messages + [user, thinking]);
    NoFinishesInPlans(t.events);
    FinishesConcat([head], PlanActions(t.events));
    FinishesOfOne(head);
    TailFinishesOnce(c, user, thinking, t);
    FinishesConcat([head] + PlanActions(t.events), HopTail(c, user, thinking, t).actions);
  }

  /** Every request is finished by exactly one `FINISH_STREAMING`, whether
      its stream ended normally or failed. */
  lemma {:induction false} OneFinishPerRequest(c: Closure, prompt: string, image: Option<UploadedImage>, t: Turn)
    ensures var eff := Chain(c, prompt, image, t);
            Finishes(eff.actions) == |eff.requests|
    decreases t
  {
    HopFinishesOnce(c, prompt, image, t);
    if Continues(c, t) {
      var p := ContinuationPrompt(t.extraction.textContent);
      OneFinishPerRequest(c, p, None, t.extraction.next);
      FinishesConcat(HopEffects(c, prompt, image, t).actions, Chain(c, p, None, t.extraction.next).actions);
    }
  }

  /** The message list dispatched starts from the captured chat's messages,
      then a user message and the thinking placeholder. */
  predicate RestartsFrom(m: seq<Message>, a: Action) {
    a.UpdateMessages? ==>
      && |a.messages| >= |m| + 2
      && a.messages[..|m|] == m
      && a.messages[|m|].role == User
      && a.messages[|m| + 1].content == ThinkingPlaceholder
  }

  /** The end of a hop dispatches only message lists that restart from the
      captured messages. */
  lemma TailRestarts(c: Closure, user: Message, thinking: Message, t: Turn)
    requires user.role == User && thinking.content == ThinkingPlaceholder
    ensures AllRestart(c.chat.messages, HopTail(c, user, thinking, t).actions)
  {
    var m := c.chat.messages;
    var acts := HopTail(c, user, thinking, t).actions;
    if Navigates(c, t) {
      var url := FindDirective(Accumulate(t.events).content).value;
      assert (m + [user, thinking, NavMessage(t.ids.nav, url)])[..|m|] == m;
      if t.extraction.ExtractThrew? {
        assert (m + [user, thinking, NavFailedMessage(t.ids.navError, t.extraction.error)])[..|m|] == m;
      }
    }
  }

  lemma HopRestarts(c: Closure, prompt: string, image: Option<UploadedImage>, t: Turn)
    ensures AllRestart(c.chat.messages, HopEffects(c, prompt, image, t).actions)
  {
    var m := c.chat.messages;
    var user := UserMessage(t.ids.user, prompt, image, c.selected);
    var thinking := ThinkingMessage(t.ids.thinking);
    var started := [UpdateMessages(m + [user, thinking])] + PlanActions(t.events);
    PlanActionsArePlans(t.events);
    assert (m + [user, thinking])[..|m|] == m;
    assert AllRestart(m, started) by {
      forall k | 0 <= k < |started| ensures RestartsFrom(m, started[k]) {
        if k >= 1 {
          assert started[k] == PlanActions(t.events)[k - 1];
        }
      }
    }
    TailRestarts(c, user, thinking, t);
    AllRestartConcat(m, started, HopTail(c, user, thinking, t).actions);
  }

  predicate AllRestart(m: seq<Message>, acts: seq<Action>) {
    forall k :: 0 <= k < |acts| ==> RestartsFrom(m, acts[k])
  }

  lemma AllRestartConcat(m: seq<Message>, a: seq<Action>, b: seq<Action>)
    requires AllRestart(m, a) && AllRestart(m, b)
    ensures AllRestart(m, a + b)
  {
    forall k | 0 <= k < |a + b| ensures RestartsFrom(m, (a + b)[k]) {
      if k < |a| { assert (a + b)[k] == a[k]; } else { assert (a + b)[k] == b[k - |a|]; }
    }
  }

  /** Every message list the chain dispatches starts from the messages of the
      chat as captured when the handler was created, followed by a user
      message and the thinking placeholder of one hop; a later hop therefore
      replaces the messages of the hops before it. */
  lemma {:induction false} MessagesRestartFromClosure(c: Closure, prompt: string, image: Option<UploadedImage>, t: Turn)
    ensures AllRestart(c.chat.messages, Chain(c, prompt, image, t).actions)
    decreases t
  {
    HopRestarts(c, prompt, image, t);
    if Continues(c, t) {
      var p := ContinuationPrompt(t.extraction.textContent);
      MessagesRestartFromClosure(c, p, None, t.extraction.next);
      ChainStep(c, prompt, image, t);
      AllRestartConcat(c.chat.messages, HopEffects(c, prompt, image, t).actions, Chain(c, p, None, t.extraction.next).actions);
    }
  }
}
