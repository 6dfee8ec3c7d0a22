/** The donation page: toggling donation kinds in and out of the selection, the
    tab chosen from the `tab` query parameter, and the submit button's state. */
module DonatePage {
  import opened Wrappers
  import opened Seqs

  /** The five donation kinds the page offers, by id. */
  const ItemIds: seq<string> := ["school-supplies", "clothes", "toys", "snacks", "birthday-kit"]

  /** `toggleItem`: a selected id is removed (every copy of it), an unselected id
      is appended. */
  function ToggleItem(selected: seq<string>, itemId: string): (r: seq<string>)
    ensures itemId in r <==> itemId !in selected
    ensures forall x :: x != itemId ==> (x in r <==> x in selected)
    ensures forall x :: x != itemId ==> multiset(r)[x] == multiset(selected)[x]
    ensures itemId !in selected ==> r == selected + [itemId]
    ensures itemId in selected ==> IsSubsequence(r, selected) && |r| < |selected|
  {
    if itemId in selected then
      var r := Keep(selected, x => x != itemId);
      KeepIsSubsequence(selected, x => x != itemId);
      KeepShrinks(selected, x => x != itemId, itemId);
      r
    else selected + [itemId]
  }

  /** Filtering out an element that is present makes the sequence strictly shorter. */
  lemma {:induction false} KeepShrinks(s: seq<string>, p: string -> bool, x: string)
    requires x in s && !p(x)
    ensures |Keep(s, p)| < |s|
  {
    if s[0] != x {
      KeepShrinks(s[1..], p, x);
    }
  }

  /** A duplicate-free selection stays duplicate-free. */
  lemma ToggleKeepsNoDuplicates(selected: seq<string>, itemId: string)
    requires NoDuplicates(selected)
    ensures NoDuplicates(ToggleItem(selected, itemId))
  {
    if itemId in selected {
      KeepNoDuplicates(selected, x => x != itemId);
    }
  }

  /** Toggling an unselected id twice gives back the original selection. */
  lemma ToggleTwiceRestores(selected: seq<string>, itemId: string)
    requires itemId !in selected
    ensures ToggleItem(ToggleItem(selected, itemId), itemId) == selected
  {
    var p := (x: string) => x != itemId;
    KeepAppend(selected, [itemId], p);
    KeepAll(selected, p);
    assert Keep([itemId], p) == [];
  }

  /** The tabs of the page. */
  datatype Tab = DonateTab | GetHelpTab

  /** `defaultTab`: the help tab exactly when the query says `tab=get-help`. */
  function DefaultTab(tabParam: Option<string>): (t: Tab)
    ensures t == GetHelpTab <==> tabParam == Some("get-help")
    ensures t == DonateTab <==> tabParam != Some("get-help")
  {
    if tabParam == Some("get-help") then GetHelpTab else DonateTab
  }

  /** `disabled={selectedItems.length === 0}`. */
  predicate SubmitDisabled(selected: seq<string>)
  {
    |selected| == 0
  }

  /** Selecting anything enables the submit button, and toggling an id off again
      from a one-item selection disables it. */
  lemma ToggleEnablesSubmit(selected: seq<string>, itemId: string)
    ensures itemId !in selected ==> !SubmitDisabled(ToggleItem(selected, itemId))
    ensures selected == [itemId] ==> SubmitDisabled(ToggleItem(selected, itemId))
  {
  }
}
