/** The bookkeeping of the sticky message toolbar: the list of observed
    message containers, a per-container state list kept in step with it, and
    the visibility toggle.

    DOM elements are compared by identity, so each is an opaque id here. The
    incognito flag is the presence of the fork button, sampled once when the
    module loads (`loadIncognito`) and again on every comparison. */
module StickyToolbar {

  /** The five elements that make up one message's toolbar anchor. */
  datatype Container = Container(messageBlock: nat, query: nat, container: nat, answer: nat, answerHeading: nat)

  datatype ContainerState = ContainerState(isMarkdown: bool, isQueryOutOfViewport: bool, isHidden: bool)

  /** The state a newly observed container starts in. */
  const DefaultState := ContainerState(true, false, true)

  /** `isChanged`: a change of the incognito flag against its load-time value,
      a different number of containers, or any element that differs at some
      position. The scan runs from the last container down. */
  method IsChanged(loadIncognito: bool, incognito: bool, prev: seq<Container>, next: seq<Container>)
    returns (changed: bool)
    ensures changed <==> loadIncognito != incognito || prev != next
  {
    if loadIncognito != incognito {
      return true;
    }
    if |prev| != |next| {
      return true;
    }
    var i := |prev| - 1;
    while i >= 0
      invariant -1 <= i < |prev|
      invariant forall j :: i < j < |prev| ==> prev[j] == next[j]
      decreases i
    {
      if prev[i].messageBlock != next[i].messageBlock || prev[i].query != next[i].query
         || prev[i].container != next[i].container || prev[i].answer != next[i].answer
         || prev[i].answerHeading != next[i].answerHeading
      {
        return true;
      }
      i := i - 1;
    }
    assert prev == next;
    return false;
  }

  /** The relation `IsChanged` decides. */
  predicate IsChangedSpec(loadIncognito: bool, incognito: bool, prev: seq<Container>, next: seq<Container>) {
    loadIncognito != incognito || prev != next
  }

  /** `updateContainers`: on a change, adopt the new list and resize the
      state list to it, keeping the states of surviving positions and giving
      new positions the default state; otherwise leave both untouched. */
  method UpdateContainers(loadIncognito: bool, incognito: bool, current: seq<Container>,
                          states: seq<ContainerState>, next: seq<Container>)
    returns (changed: bool, current': seq<Container>, states': seq<ContainerState>)
    ensures changed <==> IsChangedSpec(loadIncognito, incognito, current, next)
    ensures !changed ==> current' == current && states' == states
    ensures changed ==> current' == next && |states'| == |next|
    ensures changed ==> forall i :: 0 <= i < |next| ==>
      states'[i] == (if i < |states| then states[i] else DefaultState)
  {
    changed := IsChanged(loadIncognito, incognito, current, next);
    if !changed {
      return changed, current, states;
    }
    current' := next;
    states' := if |next| <= |states| then states[..|next|] else states;
    var i := |states'|;
    while i < |next|
      invariant i == |states'| <= |next|
      invariant forall j :: 0 <= j < i ==> states'[j] == (if j < |states| then states[j] else DefaultState)
      decreases |next| - i
    {
      states' := states' + [DefaultState];
      i := i + 1;
    }
  }

  /** As written the load-time incognito flag is never refreshed. An
      observer that reports the same container list `k` times over adopts it,
      and dispatches a `setContainers` update, every time once the flag has changed, and
      never when it has not; the states stay as they are either way. */
  method ObserveUnchanged(loadIncognito: bool, incognito: bool, current: seq<Container>,
                          states: seq<ContainerState>, k: nat)
    returns (updates: nat, states': seq<ContainerState>)
    requires |states| == |current|
    ensures updates == (if loadIncognito != incognito then k else 0)
    ensures states' == states
  {
    updates, states' := 0, states;
    var i := 0;
    while i < k
      invariant 0 <= i <= k
      invariant updates == (if loadIncognito != incognito then i else 0)
      invariant states' == states
      decreases k - i
    {
      var changed, _, next' := UpdateContainers(loadIncognito, incognito, current, states', current);
      if changed {
        updates := updates + 1;
      }
      states' := next';
      i := i + 1;
    }
  }

  /** `toggleVisibility`: a container is hidden while its message block does
      not contain the bottom button bar. Re-hiding an already hidden container
      is skipped; otherwise an update is dispatched, which sets the flag when
      a state exists at `index` and does nothing else. */
  function ToggleVisibility(states: seq<ContainerState>, index: int, blockContainsBar: bool)
    : (r: (seq<ContainerState>, bool))
    ensures |r.0| == |states|
    ensures r.1 <==> !(!blockContainsBar && 0 <= index < |states| && states[index].isHidden)
    ensures forall j :: 0 <= j < |states| && j != index ==> r.0[j] == states[j]
    ensures 0 <= index < |states| ==>
      r.0[index] == states[index].(isHidden := !blockContainsBar)
  {
    if !blockContainsBar && 0 <= index < |states| && states[index].isHidden then (states, false)
    else if 0 <= index < |states| then
      var updated := states[index].(isHidden := !blockContainsBar);
      (states[index := updated], true)
    else (states, true)
  }

  /** Toggling twice with the same observation is the same as once. */
  lemma ToggleVisibilityIdempotent(states: seq<ContainerState>, index: int, blockContainsBar: bool)
    ensures var once := ToggleVisibility(states, index, blockContainsBar).0;
      ToggleVisibility(once, index, blockContainsBar).0 == once
  {
  }
}
