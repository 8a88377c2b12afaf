/** The component's own state and the handlers that change it
    (App.tsx:48-61, 68-70, 157-298, 320, 417-426). The chat store is outside
    the component: its dispatch is recorded as a log of actions, and the
    active chat is the one the last render saw. Calls to the generation
    stream and to the browser agent are recorded as logs too; their answers
    come in as the `Turn` a send is given. Each method names the fields it
    changes in its `modifies` clause; every other field keeps its value. */
module AppShell {
  import opened Types
  import opened LiveBuffer
  import opened EventFold
  import opened Directive
  import opened Workspace
  import opened Orchestrator
  import Persist

  /** An abort-controller reference: none, live, or aborted. */
  datatype Controller = Absent | Armed | Aborted

  /** `controller?.abort()`. */
  function Abort(c: Controller): Controller {
    if c.Absent? then Absent else Aborted
  }

  /** One more event of the stream, as the specification functions see it. */
  lemma PrefixStep(events: seq<Event>, i: nat)
    requires i < |events|
    ensures Accumulate(events[..i + 1]) == Step(Accumulate(events[..i]), events[i])
    ensures BufferOf(events[..i + 1]) == ApplyEvent(BufferOf(events[..i]), events[i])
    ensures PlanActions(events[..i + 1])
            == PlanActions(events[..i]) + (if events[i].AgentPlanEvent? then [SetAgentPlan(events[i].plan)] else [])
  {
    assert events[..i + 1][..i] == events[..i];
  }

  /** From the logs and overlay `d0`, `r0`, `n0`, `lf0`, applying `eff` gives
      the logs `d`, `r`, `n`, the buffer `buf` and the overlay `lf`. */
  predicate Shows(eff: Effects, d0: seq<Action>, r0: seq<StreamRequest>, n0: seq<string>, lf0: Option<seq<File>>,
                  d: seq<Action>, r: seq<StreamRequest>, n: seq<string>, buf: seq<LiveFile>, lf: Option<seq<File>>)
  {
    && d == d0 + eff.actions
    && r == r0 + eff.requests
    && n == n0 + eff.navigations
    && buf == eff.buffer
    && lf == (if eff.pushed then None else lf0)
  }

  /** Applying a hop that pushes nothing and then the rest of the chain is
      applying their combination. */
  lemma ShowsThen(own: Effects, rest: Effects,
                  d0: seq<Action>, r0: seq<StreamRequest>, n0: seq<string>, lf0: Option<seq<File>>,
                  d1: seq<Action>, r1: seq<StreamRequest>, n1: seq<string>, buf1: seq<LiveFile>, lf1: Option<seq<File>>,
                  d2: seq<Action>, r2: seq<StreamRequest>, n2: seq<string>, buf2: seq<LiveFile>, lf2: Option<seq<File>>)
    requires !own.pushed
    requires Shows(own, d0, r0, n0, lf0, d1, r1, n1, buf1, lf1)
    requires Shows(rest, d1, r1, n1, lf1, d2, r2, n2, buf2, lf2)
    ensures Shows(Then(own, rest), d0, r0, n0, lf0, d2, r2, n2, buf2, lf2)
  {
    AppendAssoc(d0, own.actions, rest.actions);
    AppendAssoc(r0, own.requests, rest.requests);
    AppendAssoc(n0, own.navigations, rest.navigations);
  }

  /** What the overlay-clearing effect watches: the active chat and its cursor. */
  function Cursor(chat: Option<Chat>): Option<(string, int)> {
    match chat
    case None => None
    case Some(c) => Some((c.id, c.historyIndex))
  }

  class App {
    var isLoading: bool
    var view: View
    var liveGeneration: seq<LiveFile>
    var uploadedImage: Option<UploadedImage>
    var selectedElements: seq<SelectedElement>
    var interactionMode: InteractionMode
    /** The editing overlay: files edited in the code view and not yet
        committed; None when the active snapshot is shown. */
    var liveFiles: Option<seq<File>>
    var streamController: Controller
    var browserController: Controller
    var activeChat: Option<Chat>
    var dispatched: seq<Action>
    var streamRequests: seq<StreamRequest>
    var navigations: seq<string>
    /** The argument of the debounced commit that has not fired yet. */
    var pendingEdit: Option<seq<File>>

    /** The files on show: the overlay if there is one, else the snapshot
        under the active chat's cursor. */
    function Files(): seq<File>
      reads this
    {
      EffectiveFiles(liveFiles, activeChat)
    }

    constructor ()
      ensures !isLoading && view == Preview && liveGeneration == [] && uploadedImage == None
      ensures selectedElements == [] && interactionMode == Navigate && liveFiles == None
      ensures streamController == Absent && browserController == Absent && activeChat == None
      ensures dispatched == [] && streamRequests == [] && navigations == [] && pendingEdit == None
    {
      isLoading := false;
      view := Preview;
      liveGeneration := [];
      uploadedImage := None;
      selectedElements := [];
      interactionMode := Navigate;
      liveFiles := None;
      streamController := Absent;
      browserController := Absent;
      activeChat := None;
      dispatched := [];
      streamRequests := [];
      navigations := [];
      pendingEdit := None;
    }

    /** A render with `chat` as the active chat; when the chat or its cursor
        differs from the last render, the overlay is dropped. */
    method Render(chat: Option<Chat>)
      modifies this`activeChat, this`liveFiles
      ensures activeChat == chat
      ensures liveFiles == if Cursor(old(activeChat)) != Cursor(chat) then None else old(liveFiles)
    {
      if Cursor(activeChat) != Cursor(chat) {
        liveFiles := None;
      }
      activeChat := chat;
    }

    /** `handleStopGeneration`: aborts whichever controllers are present and
        clears the loading flag. */
    method HandleStopGeneration()
      modifies this`streamController, this`browserController, this`isLoading
      ensures !isLoading
      ensures streamController == Abort(old(streamController)) && browserController == Abort(old(browserController))
    {
      if streamController != Absent {
        streamController := Aborted;
      }
      if browserController != Absent {
        browserController := Aborted;
      }
      isLoading := false;
    }

    /** `pushToHistory`: dispatches the snapshot and drops the overlay. */
    method PushToHistory(state: HistoryState)
      modifies this`dispatched, this`liveFiles
      ensures dispatched == old(dispatched) + [Action.PushToHistory(state)]
      ensures liveFiles == None
    {
      dispatched := dispatched + [Action.PushToHistory(state)];
      liveFiles := None;
    }

    method HandleUndo()
      modifies this`dispatched, this`liveFiles
      ensures dispatched == old(dispatched) + [Undo]
      ensures liveFiles == None
    {
      liveFiles := None;
      dispatched := dispatched + [Undo];
    }

    method HandleRedo()
      modifies this`dispatched, this`liveFiles
      ensures dispatched == old(dispatched) + [Redo]
      ensures liveFiles == None
    {
      liveFiles := None;
      dispatched := dispatched + [Redo];
    }

    /** `handleFileContentChange`: the edited files become the overlay and the
        argument of the pending debounced commit, replacing any earlier one. */
    method HandleFileContentChange(fileName: string, newContent: string)
      modifies this`liveFiles, this`pendingEdit
      ensures liveFiles == Some(EditFile(old(Files()), fileName, newContent))
      ensures pendingEdit == liveFiles
    {
      var newFiles := EditFile(Files(), fileName, newContent);
      liveFiles := Some(newFiles);
      pendingEdit := Some(newFiles);
    }

    /** The debounce timer fires: the latest pending edit is committed. */
    method FlushPendingEdit()
      modifies this`dispatched, this`liveFiles, this`pendingEdit
      ensures old(pendingEdit).None? ==> dispatched == old(dispatched) && liveFiles == old(liveFiles)
      ensures old(pendingEdit).Some? ==>
                dispatched == old(dispatched) + [Action.PushToHistory(HistoryState(old(pendingEdit).value))]
                && liveFiles == None
      ensures pendingEdit == None
    {
      if pendingEdit.Some? {
        PushToHistory(HistoryState(pendingEdit.value));
        pendingEdit := None;
      }
    }

    /** An `elementSelected` message from the preview frame. */
    method OnElementSelected(id: string, html: string)
      modifies this`selectedElements
      ensures selectedElements == Toggle(old(selectedElements), id, html)
    {
      selectedElements := Toggle(selectedElements, id, html);
    }

    method ToggleInteractionMode()
      modifies this`interactionMode
      ensures interactionMode == if old(interactionMode) == Select then Navigate else Select
    {
      interactionMode := if interactionMode == Select then Navigate else Select;
    }

    method HandleToggleBrowserView()
      modifies this`view
      ensures view == if old(view) == Browser then Preview else Browser
    {
      view := if view == Browser then Preview else Browser;
    }

    /** The load effect, on what the key-value store held. */
    method LoadPersistedState(saved: Persist.SavedChats, savedActiveId: Option<string>, now: int,
                              tailwindThrew: bool, searchThrew: bool)
      modifies this`dispatched
      ensures dispatched == old(dispatched) + Persist.LoadActions(saved, savedActiveId, now, tailwindThrew, searchThrew)
    {
      dispatched := dispatched + Persist.LoadActions(saved, savedActiveId, now, tailwindThrew, searchThrew);
    }

    /** The body of the `for await` loop for one event. */
    method ConsumeEvent(e: Event, files: seq<File>, content: string, grounding: seq<GroundingChunk>)
      returns (files': seq<File>, content': string, grounding': seq<GroundingChunk>)
      modifies this`liveGeneration, this`dispatched
      ensures Accumulated(files', content', grounding') == Step(Accumulated(files, content, grounding), e)
      ensures liveGeneration == ApplyEvent(old(liveGeneration), e)
      ensures dispatched == old(dispatched) + (if e.AgentPlanEvent? then [SetAgentPlan(e.plan)] else [])
    {
      files', content', grounding' := files, content, grounding;
      match e {
        case AgentPlanEvent(plan) =>
          dispatched := dispatched + [SetAgentPlan(plan)];
        case FileCreate(file) =>
          liveGeneration := Created(liveGeneration, file);
        case FileChunk(name, chunk) =>
          liveGeneration := AppendChunk(liveGeneration, name, chunk);
        case FileComplete(name) =>
          liveGeneration := MarkCompleted(liveGeneration, name);
        case MetadataEvent(data) =>
          grounding' := data;
        case ResultEvent(data, fallbackText) =>
          files' := data;
          if EventFold.Truthy(fallbackText) {
            content' := fallbackText.value;
          }
      }
    }

    /** The `for await` loop: plans are dispatched as they arrive, file events
        update the live buffer, and the three accumulators are returned. */
    method ConsumeStream(events: seq<Event>) returns (acc: Accumulated)
      requires liveGeneration == []
      modifies this`liveGeneration, this`dispatched
      ensures acc == Accumulate(events)
      ensures liveGeneration == BufferOf(events)
      ensures dispatched == old(dispatched) + PlanActions(events)
    {
      var finalFiles: seq<File> := [];
      var finalGrounding: seq<GroundingChunk> := [];
      var finalContent: string := "";
      var i := 0;
      while i < |events|
        invariant 0 <= i <= |events|
        invariant Accumulated(finalFiles, finalContent, finalGrounding) == Accumulate(events[..i])
        invariant liveGeneration == BufferOf(events[..i])
        invariant dispatched == old(dispatched) + PlanActions(events[..i])
      {
        var e := events[i];
        PrefixStep(events, i);
        AppendAssoc(old(dispatched), PlanActions(events[..i]), if e.AgentPlanEvent? then [SetAgentPlan(e.plan)] else []);
        finalFiles, finalContent, finalGrounding := ConsumeEvent(e, finalFiles, finalContent, finalGrounding);
        i := i + 1;
      }
      assert events[..i] == events;
      acc := Accumulated(finalFiles, finalContent, finalGrounding);
    }

    /** The start of a hop: fresh controllers, the loading flag, the opening
        message list, the reset of the per-turn inputs and the stream request. */
    method BeginHop(opening: Action, request: StreamRequest)
      modifies this`streamController, this`browserController, this`isLoading, this`dispatched
      modifies this`liveGeneration, this`uploadedImage, this`selectedElements, this`interactionMode
      modifies this`streamRequests
      ensures streamController == Armed && browserController == Armed && isLoading
      ensures dispatched == old(dispatched) + [opening]
      ensures liveGeneration == [] && uploadedImage == None && selectedElements == [] && interactionMode == Navigate
      ensures streamRequests == old(streamRequests) + [request]
    {
      streamController := Armed;
      browserController := Armed;
      isLoading := true;
      dispatched := dispatched + [opening];
      liveGeneration := [];
      uploadedImage := None;
      selectedElements := [];
      interactionMode := Navigate;
      streamRequests := streamRequests + [request];
    }

    /** After the stream loop: `FINISH_STREAMING` with the error text or the
        accumulated answer, then either the navigation notice (and the
        extraction failure, if extraction threw) or the push of the final
        files. Reports whether it navigated. */
    method FinishHop(c: Closure, user: Message, thinking: Message, t: Turn, acc: Accumulated) returns (isNavigating: bool)
      requires acc == Accumulate(t.events)
      modifies this`dispatched, this`navigations, this`liveFiles
      ensures var tail := HopTail(c, user, thinking, t);
              && isNavigating == tail.stuck
              && dispatched == old(dispatched) + tail.actions
              && navigations == old(navigations) + tail.navigations
              && liveFiles == (if tail.pushed then None else old(liveFiles))
    {
      isNavigating := false;
      match t.end {
        case Threw(error) =>
          dispatched := dispatched + [FinishStreaming(StreamErrorText(error), [], None)];
        case Exhausted =>
          var fin := FinishStreaming(acc.content, acc.files, Some(acc.grounding));
          var navMatch := FindDirective(acc.content);
          if c.view == Browser && navMatch.Some? {
            isNavigating := true;
            var url := navMatch.value;
            var nav := UpdateMessages(c.chat.messages + [user, thinking, NavMessage(t.ids.nav, url)]);
            navigations := navigations + [url];
            if t.extraction.ExtractThrew? {
              var errorMessage := NavFailedMessage(t.ids.navError, t.extraction.error);
              dispatched := dispatched + [fin, nav, UpdateMessages(c.chat.messages + [user, thinking, errorMessage])];
            } else {
              dispatched := dispatched + [fin, nav];
            }
          } else if |acc.files| > 0 {
            dispatched := dispatched + [fin];
            PushToHistory(HistoryState(acc.files));
            assert dispatched == old(dispatched) + [fin, Action.PushToHistory(HistoryState(acc.files))];
          } else {
            dispatched := dispatched + [fin];
          }
      }
    }

    /** The request, navigation and dispatch logs show `eff` added to the
        given earlier logs, the live buffer is the one `eff` leaves, and the
        overlay is dropped exactly when `eff` pushed a snapshot. */
    predicate Applied(eff: Effects, d0: seq<Action>, r0: seq<StreamRequest>, n0: seq<string>, lf0: Option<seq<File>>)
      reads this
    {
      Shows(eff, d0, r0, n0, lf0, dispatched, streamRequests, navigations, liveGeneration, liveFiles)
    }

    /** The handler body of one hop up to the recursive call: start, stream,
        then the end of the hop. Reports whether it navigated. */
    method HopBody(c: Closure, prompt: string, image: Option<UploadedImage>, t: Turn) returns (isNavigating: bool)
      modifies this`streamController, this`browserController, this`isLoading, this`dispatched
      modifies this`liveGeneration, this`uploadedImage, this`selectedElements, this`interactionMode
      modifies this`streamRequests, this`navigations, this`liveFiles
      ensures isNavigating == Navigates(c, t)
      ensures Applied(HopEffects(c, prompt, image, t), old(dispatched), old(streamRequests), old(navigations), old(liveFiles))
      ensures streamController == Armed && browserController == Armed && isLoading
      ensures uploadedImage == None && selectedElements == [] && interactionMode == Navigate
    {
      var userMessage := UserMessage(t.ids.user, prompt, image, c.selected);
      var thinkingMessage := ThinkingMessage(t.ids.thinking);
      var opening := UpdateMessages(c.chat.messages + [userMessage, thinkingMessage]);
      BeginHop(opening, StreamRequest(prompt, image, c.files, c.selected, c.view));
      var acc := ConsumeStream(t.events);
      isNavigating := FinishHop(c, userMessage, thinkingMessage, t, acc);
      ghost var tail := HopTail(c, userMessage, thinkingMessage, t);
      AppendAssoc(old(dispatched), [opening] + PlanActions(t.events), tail.actions);
      AppendAssoc(old(dispatched), [opening], PlanActions(t.events));
    }

    /** One run of the handler body under the captured closure, including the
        recursive call a fetched page leads to, and its `finally` block: the
        whole chain's effects are applied, the loading flag is the one the
        chain leaves, and both controllers are released. */
    method RunHop(c: Closure, prompt: string, image: Option<UploadedImage>, t: Turn)
      modifies this`streamController, this`browserController, this`isLoading, this`dispatched
      modifies this`liveGeneration, this`uploadedImage, this`selectedElements, this`interactionMode
      modifies this`streamRequests, this`navigations, this`liveFiles
      decreases t
      ensures Applied(Chain(c, prompt, image, t), old(dispatched), old(streamRequests), old(navigations), old(liveFiles))
      ensures isLoading == Chain(c, prompt, image, t).stuck
      ensures streamController == Absent && browserController == Absent
      ensures uploadedImage == None && selectedElements == [] && interactionMode == Navigate
    {
      ghost var d0, r0, n0, lf0 := dispatched, streamRequests, navigations, liveFiles;
      ghost var own := HopEffects(c, prompt, image, t);
      var isNavigating := HopBody(c, prompt, image, t);
      if isNavigating && t.extraction.ExtractPage? {
        ghost var d1, r1, n1, buf1, lf1 := dispatched, streamRequests, navigations, liveGeneration, liveFiles;
        var continuationPrompt := ContinuationPrompt(t.extraction.textContent);
        RunHop(c, continuationPrompt, None, t.extraction.next);
        ghost var rest := Chain(c, continuationPrompt, None, t.extraction.next);
        ChainStep(c, prompt, image, t);
        ShowsThen(own, rest, d0, r0, n0, lf0, d1, r1, n1, buf1, lf1,
                  dispatched, streamRequests, navigations, liveGeneration, liveFiles);
      } else {
        ChainStop(c, prompt, image, t);
      }
      streamController := Absent;
      browserController := Absent;
      if !isNavigating {
        isLoading := false;
      }
    }

    /** `handleSendMessage`: nothing without an active chat; otherwise the
        chain of hops under the values captured now. */
    method HandleSendMessage(prompt: string, image: Option<UploadedImage>, t: Turn)
      modifies this`streamController, this`browserController, this`isLoading, this`dispatched
      modifies this`liveGeneration, this`uploadedImage, this`selectedElements, this`interactionMode
      modifies this`streamRequests, this`navigations, this`liveFiles
      ensures old(activeChat).None? ==> unchanged(this)
      ensures old(activeChat).Some? ==>
                var c := Closure(old(activeChat).value, old(Files()), old(view), old(selectedElements));
                && Applied(Chain(c, prompt, image, t), old(dispatched), old(streamRequests), old(navigations), old(liveFiles))
                && isLoading == Chain(c, prompt, image, t).stuck
                && streamController == Absent && browserController == Absent
                && uploadedImage == None && selectedElements == [] && interactionMode == Navigate
    {
      if activeChat.None? {
        return;
      }
      var c := Closure(activeChat.value, Files(), view, selectedElements);
      RunHop(c, prompt, image, t);
    }
  }
}
