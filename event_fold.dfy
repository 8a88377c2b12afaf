/** What one pass over the stream keeps for the end of the turn: the final
    files, the final narrative text and the grounding citations, plus the
    `SET_AGENT_PLAN` actions dispatched on the way (App.tsx:202-216). */
module EventFold {
  import opened Types

  datatype Accumulated = Accumulated(files: seq<File>, content: string, grounding: seq<GroundingChunk>)

  const Initial: Accumulated := Accumulated([], "", [])

  /** `if (event.fallbackText)`: present and non-empty. */
  predicate Truthy(t: Option<string>) {
    t.Some? && t.value != ""
  }

  predicate CarriesText(e: Event) {
    e.ResultEvent? && Truthy(e.fallbackText)
  }

  /** One event's effect on the accumulators: a `metadata` event replaces
      the grounding only, a `result` event the files and, when it carries
      text, the content; every other event leaves them alone. */
  function Step(a: Accumulated, e: Event): (r: Accumulated)
    ensures !e.ResultEvent? && !e.MetadataEvent? ==> r == a
    ensures e.MetadataEvent? ==> r.files == a.files && r.content == a.content && r.grounding == e.citations
    ensures e.ResultEvent? ==> r.grounding == a.grounding && r.files == e.resultFiles
    ensures e.ResultEvent? && !Truthy(e.fallbackText) ==> r.content == a.content
    ensures e.ResultEvent? && Truthy(e.fallbackText) ==> r.content == e.fallbackText.value
  {
    match e
    case MetadataEvent(citations) => a.(grounding := citations)
    case ResultEvent(files, fallbackText) =>
      a.(files := files, content := if Truthy(fallbackText) then fallbackText.value else a.content)
    case _ => a
  }

  /** The three accumulators after the given events. */
  function Accumulate(evs: seq<Event>): Accumulated {
    if evs == [] then Initial else Step(Accumulate(evs[..|evs| - 1]), evs[|evs| - 1])
  }

  /** The `SET_AGENT_PLAN` actions the loop dispatches, in order. */
  function PlanActions(evs: seq<Event>): (r: seq<Action>)
    ensures |r| <= |evs|
  {
    if evs == [] then []
    else
      var e := evs[|evs| - 1];
      PlanActions(evs[..|evs| - 1]) + (if e.AgentPlanEvent? then [SetAgentPlan(e.plan)] else [])
  }

  /** `finalFiles` is the data of the last `result` event, `[]` without one. */
  lemma {:induction false} LastResultWins(evs: seq<Event>)
    ensures (forall k :: 0 <= k < |evs| ==> !evs[k].ResultEvent?) ==> Accumulate(evs).files == []
    ensures forall k :: 0 <= k < |evs| && evs[k].ResultEvent?
                        && (forall j :: k < j < |evs| ==> !evs[j].ResultEvent?)
                        ==> Accumulate(evs).files == evs[k].resultFiles
    decreases |evs|
  {
    if evs != [] {
      var init := evs[..|evs| - 1];
      LastResultWins(init);
      forall k | 0 <= k < |init| ensures init[k] == evs[k] { }
    }
  }

  /** `finalContent` is the last non-empty fallback text, `''` without one. */
  lemma {:induction false} LastTextWins(evs: seq<Event>)
    ensures (forall k :: 0 <= k < |evs| ==> !CarriesText(evs[k])) ==> Accumulate(evs).content == ""
    ensures forall k :: 0 <= k < |evs| && CarriesText(evs[k])
                        && (forall j :: k < j < |evs| ==> !CarriesText(evs[j]))
                        ==> Accumulate(evs).content == evs[k].fallbackText.value
    decreases |evs|
  {
    if evs != [] {
      var init := evs[..|evs| - 1];
      var e := evs[|evs| - 1];
      LastTextWins(init);
      assert Accumulate(evs).content
             == if CarriesText(e) then e.fallbackText.value else Accumulate(init).content;
      forall k | 0 <= k < |evs| && CarriesText(evs[k]) && (forall j :: k < j < |evs| ==> !CarriesText(evs[j]))
        ensures Accumulate(evs).content == evs[k].fallbackText.value
      {
        if k < |init| {
          assert init[k] == evs[k];
          forall j | k < j < |init| ensures !CarriesText(init[j]) {
            assert init[j] == evs[j];
          }
        }
      }
      if forall k :: 0 <= k < |evs| ==> !CarriesText(evs[k]) {
        assert !CarriesText(e);
        forall k | 0 <= k < |init| ensures !CarriesText(init[k]) {
          assert init[k] == evs[k];
        }
      }
    }
  }

  /** The grounding is the data of the last `metadata` event, `[]` without one. */
  lemma {:induction false} LastMetadataWins(evs: seq<Event>)
    ensures (forall k :: 0 <= k < |evs| ==> !evs[k].MetadataEvent?) ==> Accumulate(evs).grounding == []
    ensures forall k :: 0 <= k < |evs| && evs[k].MetadataEvent?
                        && (forall j :: k < j < |evs| ==> !evs[j].MetadataEvent?)
                        ==> Accumulate(evs).grounding == evs[k].citations
    decreases |evs|
  {
    if evs != [] {
      var init := evs[..|evs| - 1];
      LastMetadataWins(init);
      forall k | 0 <= k < |init| ensures init[k] == evs[k] { }
    }
  }

  /** An `agent_plan` event, wherever it occurs, adds its own `SET_AGENT_PLAN`
      and changes nothing that the turn keeps. */
  lemma {:induction false} PlanOnlyDispatches(pre: seq<Event>, p: AgentPlan, post: seq<Event>)
    ensures Accumulate(pre + [AgentPlanEvent(p)] + post) == Accumulate(pre + post)
    ensures PlanActions(pre + [AgentPlanEvent(p)] + post)
            == PlanActions(pre) + [SetAgentPlan(p)] + PlanActions(post)
    decreases |post|
  {
    var s := pre + [AgentPlanEvent(p)] + post;
    if post == [] {
      assert s[..|s| - 1] == pre;
      assert pre + post == pre;
    } else {
      var post' := post[..|post| - 1];
      var e := post[|post| - 1];
      assert s[..|s| - 1] == pre + [AgentPlanEvent(p)] + post';
      assert (pre + post)[..|pre + post| - 1] == pre + post';
      assert s[|s| - 1] == e && (pre + post)[|pre + post| - 1] == e;
      PlanOnlyDispatches(pre, p, post');
    }
  }

  /** Events other than `agent_plan` dispatch nothing. */
  lemma {:induction false} NoPlansNoActions(evs: seq<Event>)
    requires forall k :: 0 <= k < |evs| ==> !evs[k].AgentPlanEvent?
    ensures PlanActions(evs) == []
    decreases |evs|
  {
    if evs != [] {
      var init := evs[..|evs| - 1];
      assert forall k :: 0 <= k < |init| ==> init[k] == evs[k];
      NoPlansNoActions(init);
    }
  }

  /** The loop dispatches nothing but `SET_AGENT_PLAN`. */
  lemma {:induction false} PlanActionsArePlans(evs: seq<Event>)
    ensures forall k :: 0 <= k < |PlanActions(evs)| ==> PlanActions(evs)[k].SetAgentPlan?
    decreases |evs|
  {
    if evs != [] {
      PlanActionsArePlans(evs[..|evs| - 1]);
    }
  }
}
