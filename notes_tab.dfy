/**
 * The notes accordion of `src/components/Tabs/NotesTab.jsx`: one optional `expandedIndex`
 * state cell, toggled by clicking a row, and the message shown when there are no notes.
 */
module NotesTab {
  import opened Wrappers

  /** `toggleExpand(index)`: collapse the row if it is the expanded one, otherwise expand it alone. */
  function Toggle(expanded: Option<nat>, index: nat): (r: Option<nat>)
    ensures r == None <==> expanded == Some(index)
    ensures r != None ==> r == Some(index)
  {
    if expanded == Some(index) then None else Some(index)
  }

  /** `isExpanded` of row `index`. */
  predicate IsExpanded(expanded: Option<nat>, index: nat)
  {
    expanded == Some(index)
  }

  /** The rows of a list of `n` notes that render their body. */
  function ExpandedRows(expanded: Option<nat>, n: nat): (r: set<nat>)
    ensures |r| <= 1
    ensures forall i: nat :: i in r <==> i < n && IsExpanded(expanded, i)
  {
    if expanded.Some? && expanded.value < n then {expanded.value} else {}
  }

  /** After a click on row `index`, that row is the only one expanded, or none is. */
  lemma ToggleExpandsOnlyClicked(expanded: Option<nat>, index: nat, n: nat)
    requires index < n
    ensures ExpandedRows(Toggle(expanded, index), n) == if expanded == Some(index) then {} else {index}
  {
  }

  /** Toggling the same row twice restores the state exactly when that row or no row was expanded. */
  lemma ToggleTwice(expanded: Option<nat>, index: nat)
    ensures Toggle(Toggle(expanded, index), index) == expanded <==> expanded == None || expanded == Some(index)
    ensures Toggle(Toggle(None, index), index) == None
  {
  }

  /** The state after clicking the rows in `clicks`, in order. */
  function Clicks(expanded: Option<nat>, clicks: seq<nat>): Option<nat>
    decreases |clicks|
  {
    if clicks == [] then expanded else Clicks(Toggle(expanded, clicks[0]), clicks[1..])
  }

  /** The state after clicking any sequence of rows is none, or the last row clicked. */
  lemma {:induction false} ClicksLast(expanded: Option<nat>, clicks: seq<nat>)
    requires clicks != []
    ensures Clicks(expanded, clicks) == None || Clicks(expanded, clicks) == Some(clicks[|clicks| - 1])
    decreases |clicks|
  {
    if |clicks| > 1 {
      ClicksLast(Toggle(expanded, clicks[0]), clicks[1..]);
    }
  }

  /** Clicking row `index` `k` times from the initial state leaves it expanded exactly when `k` is odd. */
  lemma {:induction false} RepeatedClicks(index: nat, k: nat)
    ensures Clicks(None, seq(k, _ => index)) == if k % 2 == 1 then Some(index) else None
    decreases k
  {
    if k > 0 {
      var first := Toggle(None, index);
      assert seq(k, _ => index)[1..] == seq(k - 1, _ => index);
      if k > 1 {
        assert seq(k - 1, _ => index)[1..] == seq(k - 2, _ => index);
        RepeatedClicks(index, k - 2);
      }
    }
  }

  /** How many rows render: none when the list is missing. */
  function RowCount<T>(notes: Option<seq<T>>): nat
  {
    if notes.Some? then |notes.value| else 0
  }

  /** "No public notes yet." renders when the list is missing or empty. */
  predicate ShowsEmptyMessage<T>(notes: Option<seq<T>>)
  {
    notes.None? || |notes.value| == 0
  }

  /** The message renders exactly when no row does. */
  lemma EmptyMessageWhenNoRows<T>(notes: Option<seq<T>>)
    ensures ShowsEmptyMessage(notes) <==> RowCount(notes) == 0
  {
  }

  /** The accordion component with its `expandedIndex` state cell. */
  class NotesTabView {
    var expandedIndex: Option<nat>

    /** Initially no note is expanded. */
    constructor ()
      ensures expandedIndex == None
    {
      expandedIndex := None;
    }

    /** The click handler of row `index`. */
    method ToggleExpand(index: nat)
      modifies this
      ensures expandedIndex == Toggle(old(expandedIndex), index)
    {
      expandedIndex := if expandedIndex == Some(index) then None else Some(index);
    }
  }
}
