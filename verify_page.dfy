/**
 * The cross-check page: the user picks the agents to ask (at least two) and a prompt, and the
 * page posts both to the verify route. The page state is a value; the response is a parameter.
 * Rendering is left out.
 */
module VerifyPage {
  import opened Common
  import opened Text
  import Json

  /** The ids of the two agent buttons, in display order. */
  const AgentOptions := ["iisf-ops", "iisf-assistant"]

  /** Both agents are selected when the page opens. */
  const InitialSelection := ["iisf-ops", "iisf-assistant"]

  /** `prev.filter((a) => a !== id)`. */
  function Without(prev: seq<string>, id: string): (r: seq<string>)
    ensures |r| <= |prev| && id !in r
    ensures forall k :: 0 <= k < |r| ==> r[k] in prev
    decreases |prev|
  {
    if prev == [] then [] else (if prev[0] == id then [] else [prev[0]]) + Without(prev[1..], id)
  }

  /** Every other id is kept. */
  lemma {:induction false} WithoutKeeps(prev: seq<string>, id: string, x: string)
    requires x in prev && x != id
    ensures x in Without(prev, id)
    decreases |prev|
  {
    if prev[0] != x {
      WithoutKeeps(prev[1..], id, x);
    }
  }

  /** `toggleAgent(id)`: a selected id is removed, any other one is added at the end. */
  function Toggle(prev: seq<string>, id: string): (r: seq<string>)
    ensures id in r <==> id !in prev
    ensures id !in prev ==> r == prev + [id]
    ensures forall k :: 0 <= k < |r| ==> r[k] in prev || r[k] == id
  {
    if id in prev then Without(prev, id) else prev + [id]
  }

  /** Toggling leaves every other id as selected or unselected as it was. */
  lemma ToggleOthers(prev: seq<string>, id: string, x: string)
    requires x != id
    ensures x in Toggle(prev, id) <==> x in prev
  {
    if x in prev && id in prev {
      WithoutKeeps(prev, id, x);
    }
  }

  predicate Distinct(s: seq<string>) {
    forall i, j :: 0 <= i < j < |s| ==> s[i] != s[j]
  }

  lemma {:induction false} WithoutDistinct(prev: seq<string>, id: string)
    requires Distinct(prev)
    ensures Distinct(Without(prev, id))
    decreases |prev|
  {
    if prev != [] {
      WithoutDistinct(prev[1..], id);
      var rest := Without(prev[1..], id);
      assert prev[0] !in prev[1..];
    }
  }

  /** No toggle makes an agent selected twice. */
  lemma ToggleKeepsDistinct(prev: seq<string>, id: string)
    requires Distinct(prev)
    ensures Distinct(Toggle(prev, id))
  {
    if id in prev {
      WithoutDistinct(prev, id);
    }
  }

  /** Removing an id that is not there changes nothing. */
  lemma {:induction false} WithoutAbsent(prev: seq<string>, id: string)
    requires id !in prev
    ensures Without(prev, id) == prev
    decreases |prev|
  {
    if prev != [] {
      WithoutAbsent(prev[1..], id);
      assert prev == [prev[0]] + prev[1..];
    }
  }

  lemma {:induction false} WithoutAppended(prev: seq<string>, id: string)
    requires id !in prev
    ensures Without(prev + [id], id) == prev
    decreases |prev|
  {
    if prev == [] {
      assert ([] + [id])[1..] == [];
    } else {
      assert (prev + [id])[1..] == prev[1..] + [id];
      WithoutAppended(prev[1..], id);
      assert prev == [prev[0]] + prev[1..];
    }
  }

  /** Toggling an unselected agent twice gives back the selection exactly. */
  lemma ToggleTwiceAbsent(prev: seq<string>, id: string)
    requires id !in prev
    ensures Toggle(Toggle(prev, id), id) == prev
  {
    WithoutAppended(prev, id);
  }

  /** Toggling a selected agent twice gives back the same agents, with that one moved last. */
  lemma ToggleTwicePresent(prev: seq<string>, id: string)
    requires id in prev
    ensures Toggle(Toggle(prev, id), id) == Without(prev, id) + [id]
    ensures forall x :: x in Toggle(Toggle(prev, id), id) <==> x in prev
  {
    forall x | x in prev
      ensures x in Without(prev, id) + [id]
    {
      if x != id {
        WithoutKeeps(prev, id, x);
      }
    }
  }

  /** So the list itself is not always restored: the order can change. */
  lemma ToggleTwiceReorders()
    ensures Toggle(Toggle(InitialSelection, "iisf-ops"), "iisf-ops") == ["iisf-assistant", "iisf-ops"]
    ensures Toggle(Toggle(InitialSelection, "iisf-ops"), "iisf-ops") != InitialSelection
  {
    var s := InitialSelection;
    assert s[0] == "iisf-ops" && s[1] == "iisf-assistant" && s[1..][1..] == [];
    assert "iisf-ops" != "iisf-assistant";
    assert Without(s[1..][1..], "iisf-ops") == [];
    assert Without(s[1..], "iisf-ops") == ["iisf-assistant"];
    assert Without(s, "iisf-ops") == ["iisf-assistant"];
  }

  /** The request body: the trimmed prompt and the selected agents. */
  datatype Request = Request(input: string, agents: seq<string>)

  /** The page's state. */
  datatype Page = Page(input: string, selected: seq<string>, result: Option<Json.Value>, loading: bool)

  const Initial := Page("", InitialSelection, None, false)

  /** The guard of `runVerification` (a blank prompt, fewer than two agents or a run in flight stop it). */
  predicate CanRun(p: Page) {
    Trim(p.input) != "" && |p.selected| >= 2 && !p.loading
  }

  /** The `disabled` expression of the run button. */
  predicate ButtonDisabled(p: Page) {
    p.loading || Trim(p.input) == "" || |p.selected| < 2
  }

  /** The button is disabled exactly when a click would do nothing. */
  lemma ButtonMatchesGuard(p: Page)
    ensures ButtonDisabled(p) <==> !CanRun(p)
  {
  }

  /**
   * `runVerification`, given the parsed response (`Err`: the request or `res.json()` threw):
   * the new state and the request sent.
   */
  function RunVerification(p: Page, answer: Result<Json.Value, string>): (r: (Page, Option<Request>))
    ensures r.1.Some? <==> CanRun(p)
    ensures !CanRun(p) ==> r.0 == p
    ensures CanRun(p) ==> r.1.value == Request(Trim(p.input), p.selected)
    ensures CanRun(p) ==> r.0.input == p.input && r.0.selected == p.selected && !r.0.loading
    ensures CanRun(p) ==> (r.0.result.Some? <==> answer.Ok?) && (answer.Ok? ==> r.0.result.value == answer.value)
  {
    if !CanRun(p) then (p, None)
    else
      var result := if answer.Ok? then Some(answer.value) else None;
      (p.(result := result, loading := false), Some(Request(Trim(p.input), p.selected)))
  }

  /** A prompt that is not blank can be run from the opening state, with both agents. */
  lemma OpeningStateRuns(input: string, answer: Result<Json.Value, string>)
    requires Trim(input) != ""
    ensures RunVerification(Initial.(input := input), answer).1 == Some(Request(Trim(input), AgentOptions))
  {
  }

  /** With only two agents to choose from, a run needs both of them. */
  lemma RunNeedsBoth(p: Page)
    requires Distinct(p.selected) && forall k :: 0 <= k < |p.selected| ==> p.selected[k] in AgentOptions
    requires CanRun(p)
    ensures "iisf-ops" in p.selected && "iisf-assistant" in p.selected
  {
    var s := p.selected;
    assert s[0] in AgentOptions && s[1] in AgentOptions && s[0] != s[1];
  }
}
