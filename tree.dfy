/** The goal tree of scripts/tree.js, an ARIA tree view: tree items in document order,
    each with a tabindex, an optional `aria-expanded` attribute, an `aria-selected` flag
    and possibly a twisty; and groups, each shown or hidden after the item right
    before it (its controller). The handlers change these attributes in place. */
module TreeView {
  import opened Wrappers

  const OPEN_TWISTY := "\U{25BE}"
  const CLOSED_TWISTY := "\U{25B8}"

  // ---- the attribute rules ----

  /** `getAttribute('aria-expanded') === 'true'`. */
  predicate IsOpen(attr: Option<string>)
  {
    attr == Some("true")
  }

  /** What `toggle` writes: nothing for a leaf, else the opposite of "open". */
  function Toggled(attr: Option<string>): Option<string>
  {
    match attr
    case None => None
    case Some(v) => Some(if v == "true" then "false" else "true")
  }

  /** A leaf stays a leaf, an item's open state flips, and toggling twice restores an
      item whose attribute is "true" or "false". */
  lemma ToggledSpec(attr: Option<string>)
    ensures attr.None? <==> Toggled(attr).None?
    ensures attr.Some? ==> (IsOpen(Toggled(attr)) <==> !IsOpen(attr))
    ensures attr.Some? ==> Toggled(attr) == Some("true") || Toggled(attr) == Some("false")
    ensures attr == Some("true") || attr == Some("false") ==> Toggled(Toggled(attr)) == attr
  {
  }

  /** Toggling twice need not restore any other attribute value. */
  lemma ToggleTwiceNormalises()
    ensures Toggled(Toggled(Some("yes"))) == Some("false")
  {
  }

  function TwistyText(open: bool): string
  {
    if open then OPEN_TWISTY else CLOSED_TWISTY
  }

  /** `controller?.getAttribute('aria-expanded') === 'true'`. */
  predicate ControllerOpen(expanded: seq<Option<string>>, c: Option<nat>)
  {
    c.Some? && c.value < |expanded| && IsOpen(expanded[c.value])
  }

  /** The `hidden` flags `syncGroups` writes. */
  function SyncedHidden(expanded: seq<Option<string>>, controllers: seq<Option<nat>>): (h: seq<bool>)
    ensures |h| == |controllers|
  {
    seq(|controllers|, g requires 0 <= g < |controllers| => !ControllerOpen(expanded, controllers[g]))
  }

  /** The twisty texts after `syncGroups`: each controller's twisty shows its state,
      every other twisty keeps its text. */
  function SyncedTwisty(twisty: seq<string>, expanded: seq<Option<string>>, controllers: seq<Option<nat>>, hasTwisty: seq<bool>): (t: seq<string>)
    requires |hasTwisty| == |twisty| == |expanded|
    ensures |t| == |twisty|
  {
    seq(|twisty|, j requires 0 <= j < |twisty| =>
      if hasTwisty[j] && Some(j) in controllers then TwistyText(IsOpen(expanded[j])) else twisty[j])
  }

  /** Toggling item `i` flips exactly the groups it controls. */
  lemma ToggleFlipsOwnGroups(expanded: seq<Option<string>>, controllers: seq<Option<nat>>, i: nat, g: nat)
    requires i < |expanded| && expanded[i].Some? && g < |controllers|
    ensures var after := SyncedHidden(expanded[i := Toggled(expanded[i])], controllers);
      after[g] == if controllers[g] == Some(i) then !SyncedHidden(expanded, controllers)[g]
                  else SyncedHidden(expanded, controllers)[g]
  {
    ToggledSpec(expanded[i]);
  }

  /** The tabindex values after `setOnlyTabbable(el)`. */
  function OnlyTabbable(n: nat, el: Option<nat>): (t: seq<int>)
    ensures |t| == n
  {
    seq(n, j requires 0 <= j < n => if el == Some(j) then 0 else -1)
  }

  /** Exactly one item is tabbable after a focus move to an item, none after a move to
      nothing, and every other item has tabindex -1. */
  lemma ExactlyOneTabbable(n: nat, el: Option<nat>)
    requires el.Some? ==> el.value < n
    ensures el.Some? ==> (set j | 0 <= j < n && OnlyTabbable(n, el)[j] == 0) == {el.value}
    ensures el.None? ==> (set j | 0 <= j < n && OnlyTabbable(n, el)[j] == 0) == {}
    ensures forall j :: 0 <= j < n && el != Some(j) ==> OnlyTabbable(n, el)[j] == -1
  {
    var t := OnlyTabbable(n, el);
    if el.Some? {
      assert t[el.value] == 0;
    }
  }

  // ---- the keydown handler ----

  /** What a key press does to the tree. */
  datatype Action = MoveFocus(target: Option<nat>) | ToggleAt(item: nat) | Ignore

  /** The keydown handler's decision, for the focused item `current` among `n` items;
      `currentOpen` is its expanded state and `parent` the item controlling the group
      around it. */
  function KeyAction(key: string, current: Option<nat>, n: nat, currentOpen: bool, parent: Option<nat>): Action
    requires current.Some? ==> current.value < n
  {
    match current
    case None => MoveFocus(if n > 0 then Some(0) else None)
    case Some(i) =>
      if key == "ArrowDown" then MoveFocus(Some(if i + 1 < n - 1 then i + 1 else n - 1))
      else if key == "ArrowUp" then MoveFocus(Some(if i - 1 > 0 then i - 1 else 0))
      else if key == "Home" then MoveFocus(Some(0))
      else if key == "End" then MoveFocus(Some(n - 1))
      else if key == "ArrowRight" || key == "Enter" || key == " " then ToggleAt(i)
      else if key == "ArrowLeft" then
        if currentOpen then ToggleAt(i) else if parent.Some? then MoveFocus(parent) else Ignore
      else Ignore
  }

  /** `e.preventDefault()` is called exactly for the handled keys, with an item focused. */
  predicate Handled(key: string, current: Option<nat>)
  {
    current.Some? && key in ["ArrowDown", "ArrowUp", "Home", "End", "ArrowRight", "Enter", " ", "ArrowLeft"]
  }

  /** Every focus move lands on an item (or on nothing only when there are no items),
      moves by at most one place for the arrow keys and sticks at either end, and a
      toggle only ever concerns the focused item. */
  lemma KeyActionInRange(key: string, current: Option<nat>, n: nat, currentOpen: bool, parent: Option<nat>)
    requires current.Some? ==> current.value < n
    requires parent.Some? ==> parent.value < n
    ensures var a := KeyAction(key, current, n, currentOpen, parent);
      a.MoveFocus? && a.target.Some? ==> a.target.value < n
    ensures var a := KeyAction(key, current, n, currentOpen, parent);
      a.MoveFocus? && a.target.None? ==> n == 0
    ensures var a := KeyAction(key, current, n, currentOpen, parent);
      a.ToggleAt? ==> current == Some(a.item)
    ensures current.Some? && (key == "ArrowDown" || key == "ArrowUp") ==>
      var t := KeyAction(key, current, n, currentOpen, parent).target.value;
      -1 <= t - current.value <= 1
    ensures current.Some? && key == "ArrowDown" ==>
      KeyAction(key, current, n, currentOpen, parent) == MoveFocus(Some(if current.value == n - 1 then current.value else current.value + 1))
    ensures current.Some? && key == "ArrowUp" ==>
      KeyAction(key, current, n, currentOpen, parent) == MoveFocus(Some(if current.value == 0 then 0 else current.value - 1))
  {
  }

  /** ArrowLeft collapses an open item in place; otherwise it moves to the parent item,
      or does nothing at the top level. ArrowRight, Enter and Space toggle, so they
      collapse an open item too. */
  lemma ArrowLeftAndRight(current: nat, n: nat, currentOpen: bool, parent: Option<nat>)
    requires current < n
    ensures currentOpen ==> KeyAction("ArrowLeft", Some(current), n, currentOpen, parent) == ToggleAt(current)
    ensures !currentOpen && parent.Some? ==> KeyAction("ArrowLeft", Some(current), n, currentOpen, parent) == MoveFocus(parent)
    ensures !currentOpen && parent.None? ==> KeyAction("ArrowLeft", Some(current), n, currentOpen, parent) == Ignore
    ensures forall k :: k in ["ArrowRight", "Enter", " "] ==> KeyAction(k, Some(current), n, currentOpen, parent) == ToggleAt(current)
  {
  }

  // ---- what is rendered, and where `focus()` takes effect ----

  /** Groups nest in document order: the controller of the group around an item comes
      before that item. */
  predicate Nested(controllers: seq<Option<nat>>, itemGroup: seq<Option<nat>>)
  {
    forall j :: 0 <= j < |itemGroup| && itemGroup[j].Some? && itemGroup[j].value < |controllers| ==>
      controllers[itemGroup[j].value].Some? ==> controllers[itemGroup[j].value].value < j
  }

  /** Whether item `j` is rendered: no group around it is `hidden`. A group sits beside
      its controller, so the groups around it are those around the controller; a group
      without a controller is taken to be at the top level. */
  predicate Displayed(hidden: seq<bool>, controllers: seq<Option<nat>>, itemGroup: seq<Option<nat>>, j: nat)
    requires Nested(controllers, itemGroup)
    decreases j
  {
    && j < |itemGroup|
    && match itemGroup[j]
       case None => true
       case Some(g) =>
         && g < |hidden| && g < |controllers| && !hidden[g]
         && match controllers[g]
            case None => true
            case Some(c) => Displayed(hidden, controllers, itemGroup, c)
  }

  /** The focused item after `el?.focus()`: `el` when it is rendered; `focus()` on an
      element that is not rendered leaves the focus where it was. */
  function Focused(hidden: seq<bool>, controllers: seq<Option<nat>>, itemGroup: seq<Option<nat>>,
                   focus: Option<nat>, el: Option<nat>): (f: Option<nat>)
    requires Nested(controllers, itemGroup)
    ensures f == el || f == focus
    ensures f == el <== el.Some? && Displayed(hidden, controllers, itemGroup, el.value)
    ensures f.Some? && f != focus ==> f.value < |itemGroup|
  {
    if el.Some? && Displayed(hidden, controllers, itemGroup, el.value) then el else focus
  }

  /** The focus after `k` presses of ArrowDown as the handler is written, with the
      groups as they are. */
  function ArrowDowns(hidden: seq<bool>, controllers: seq<Option<nat>>, itemGroup: seq<Option<nat>>,
                      focus: Option<nat>, k: nat): Option<nat>
    requires Nested(controllers, itemGroup)
    requires focus.Some? ==> focus.value < |itemGroup|
    decreases k
  {
    if k == 0 then focus
    else
      var t := KeyAction("ArrowDown", focus, |itemGroup|, false, None).target;
      ArrowDowns(hidden, controllers, itemGroup, Focused(hidden, controllers, itemGroup, focus, t), k - 1)
  }

  /** As written, ArrowDown from item `i` targets `i + 1` whether or not it is rendered;
      when it is not, `focus()` does nothing, the next press targets `i + 1` again, and
      no number of presses gets past it. */
  lemma {:induction false} ArrowDownStuck(hidden: seq<bool>, controllers: seq<Option<nat>>, itemGroup: seq<Option<nat>>,
                                          i: nat, k: nat)
    requires Nested(controllers, itemGroup)
    requires i + 1 < |itemGroup| && !Displayed(hidden, controllers, itemGroup, i + 1)
    ensures ArrowDowns(hidden, controllers, itemGroup, Some(i), k) == Some(i)
  {
    if k > 0 {
      assert KeyAction("ArrowDown", Some(i), |itemGroup|, false, None).target == Some(i + 1);
      ArrowDownStuck(hidden, controllers, itemGroup, i, k - 1);
    }
  }

  /** Item 0 is collapsed and its group holds item 1; item 2 is a top-level sibling.
      Item 2 is rendered, yet ArrowDown from item 0 never reaches it. */
  lemma CollapsedItemBlocksArrowDown(k: nat)
    ensures SyncedHidden([Some("false"), None, None], [Some(0)]) == [true]
    ensures Nested([Some(0)], [None, Some(0), None])
    ensures Displayed([true], [Some(0)], [None, Some(0), None], 2)
    ensures ArrowDowns([true], [Some(0)], [None, Some(0), None], Some(0), k) == Some(0)
  {
    ArrowDownStuck([true], [Some(0)], [None, Some(0), None], 0, k);
  }

  /** The rendered items, one flag per item. */
  function ShownItems(hidden: seq<bool>, controllers: seq<Option<nat>>, itemGroup: seq<Option<nat>>): (s: seq<bool>)
    requires Nested(controllers, itemGroup)
    ensures |s| == |itemGroup|
    ensures forall j :: 0 <= j < |s| ==> (s[j] <==> Displayed(hidden, controllers, itemGroup, j))
  {
    seq(|itemGroup|, j requires 0 <= j < |itemGroup| => Displayed(hidden, controllers, itemGroup, j))
  }

  /** The parent item of a rendered item is rendered. */
  lemma DisplayedParent(hidden: seq<bool>, controllers: seq<Option<nat>>, itemGroup: seq<Option<nat>>, j: nat)
    requires Nested(controllers, itemGroup) && Displayed(hidden, controllers, itemGroup, j)
    requires itemGroup[j].Some? && controllers[itemGroup[j].value].Some?
    ensures Displayed(hidden, controllers, itemGroup, controllers[itemGroup[j].value].value)
  {
  }

  /** The first rendered item after `i`, searching from `m`; `i` when there is none. */
  function NextShownFrom(shown: seq<bool>, i: nat, m: nat): (j: nat)
    requires i < m <= |shown|
    requires forall p :: i < p < m ==> !shown[p]
    ensures i <= j < |shown|
    ensures j > i ==> shown[j] && forall p :: i < p < j ==> !shown[p]
    ensures j == i ==> forall p :: i < p < |shown| ==> !shown[p]
    decreases |shown| - m
  {
    if m == |shown| then i
    else if shown[m] then m
    else NextShownFrom(shown, i, m + 1)
  }

  /** The last rendered item before `i`, searching down from `m`; `i` when there is none. */
  function PrevShownFrom(shown: seq<bool>, i: nat, m: int): (j: nat)
    requires i < |shown| && -1 <= m < i
    requires forall p :: m < p < i ==> !shown[p]
    ensures j <= i
    ensures j < i ==> shown[j] && forall p :: j < p < i ==> !shown[p]
    ensures j == i ==> forall p :: 0 <= p < i ==> !shown[p]
    decreases m + 1
  {
    if m == -1 then i
    else if shown[m] then m
    else PrevShownFrom(shown, i, m - 1)
  }

  /** The next rendered item after `i`, or `i` itself at the end. */
  function NextShown(shown: seq<bool>, i: nat): (j: nat)
    requires i < |shown|
    ensures i <= j < |shown|
    ensures j > i ==> shown[j] && forall p :: i < p < j ==> !shown[p]
    ensures j == i ==> forall p :: i < p < |shown| ==> !shown[p]
  {
    NextShownFrom(shown, i, i + 1)
  }

  /** The previous rendered item before `i`, or `i` itself at the start. */
  function PrevShown(shown: seq<bool>, i: nat): (j: nat)
    requires i < |shown|
    ensures j <= i
    ensures j < i ==> shown[j] && forall p :: j < p < i ==> !shown[p]
    ensures j == i ==> forall p :: 0 <= p < i ==> !shown[p]
  {
    PrevShownFrom(shown, i, i - 1)
  }

  /** The keydown decision of the ARIA tree pattern: the arrow keys, Home and End move
      among the rendered items only; `shown` has one flag per item. Everything else is
      as in `KeyAction`. */
  function VisibleKeyAction(key: string, current: Option<nat>, shown: seq<bool>, currentOpen: bool, parent: Option<nat>): Action
    requires current.Some? ==> current.value < |shown|
  {
    var n := |shown|;
    match current
    case None => MoveFocus(if n > 0 then Some(0) else None)
    case Some(i) =>
      if key == "ArrowDown" then MoveFocus(Some(NextShown(shown, i)))
      else if key == "ArrowUp" then MoveFocus(Some(PrevShown(shown, i)))
      else if key == "Home" then MoveFocus(Some(if shown[0] then 0 else NextShown(shown, 0)))
      else if key == "End" then MoveFocus(Some(if shown[n - 1] then n - 1 else PrevShown(shown, n - 1)))
      else KeyAction(key, current, n, currentOpen, parent)
  }

  /** From a rendered item every focus move lands on a rendered item: ArrowDown on the
      next one (or stays at the last), ArrowUp on the previous one (or stays at the
      first), Home on the first and End on the last. */
  lemma VisibleKeyActionShown(key: string, current: nat, shown: seq<bool>, currentOpen: bool, parent: Option<nat>)
    requires current < |shown| && shown[current]
    requires parent.Some? ==> parent.value < |shown| && shown[parent.value]
    ensures var a := VisibleKeyAction(key, Some(current), shown, currentOpen, parent);
      a.MoveFocus? ==> a.target.Some? && a.target.value < |shown| && shown[a.target.value]
    ensures key == "ArrowDown" ==> var t := VisibleKeyAction(key, Some(current), shown, currentOpen, parent).target.value;
      current <= t && forall p :: current < p < |shown| && p != t ==> shown[p] ==> t < p
    ensures key == "ArrowUp" ==> var t := VisibleKeyAction(key, Some(current), shown, currentOpen, parent).target.value;
      t <= current && forall p :: 0 <= p < current && p != t ==> shown[p] ==> p < t
    ensures key == "Home" ==> var t := VisibleKeyAction(key, Some(current), shown, currentOpen, parent).target.value;
      forall p :: 0 <= p < t ==> !shown[p]
    ensures key == "End" ==> var t := VisibleKeyAction(key, Some(current), shown, currentOpen, parent).target.value;
      forall p :: t < p < |shown| ==> !shown[p]
  {
    var n := |shown|;
    if key == "Home" && !shown[0] {
      assert 0 < current;
    }
    if key == "End" && !shown[n - 1] {
      assert current < n - 1;
    }
    if key !in ["ArrowDown", "ArrowUp", "Home", "End"] {
      KeyActionInRange(key, Some(current), n, currentOpen, parent);
    }
  }

  /** Under the corrected decision a focus move from a rendered item takes effect: the
      target is rendered, so `focus()` lands on it. */
  lemma VisibleMoveTakesEffect(hidden: seq<bool>, controllers: seq<Option<nat>>, itemGroup: seq<Option<nat>>,
                               key: string, current: nat, currentOpen: bool, parent: Option<nat>)
    requires Nested(controllers, itemGroup) && Displayed(hidden, controllers, itemGroup, current)
    requires parent.Some? ==> Displayed(hidden, controllers, itemGroup, parent.value)
    ensures var a := VisibleKeyAction(key, Some(current), ShownItems(hidden, controllers, itemGroup), currentOpen, parent);
      a.MoveFocus? ==>
        && a.target.Some? && Displayed(hidden, controllers, itemGroup, a.target.value)
        && Focused(hidden, controllers, itemGroup, Some(current), a.target) == a.target
  {
    VisibleKeyActionShown(key, current, ShownItems(hidden, controllers, itemGroup), currentOpen, parent);
  }

  /** The focus after `k` presses of ArrowDown under the corrected handler. */
  function VisibleArrowDowns(shown: seq<bool>, i: nat, k: nat): (j: nat)
    requires i < |shown|
    ensures j < |shown|
    decreases k
  {
    if k == 0 then i else VisibleArrowDowns(shown, NextShown(shown, i), k - 1)
  }

  /** Under the corrected handler, pressing ArrowDown often enough from any item reaches
      every rendered item after it. */
  lemma {:induction false} VisibleArrowDownReaches(shown: seq<bool>, i: nat, j: nat)
    requires i < j < |shown| && shown[j]
    ensures exists k: nat :: VisibleArrowDowns(shown, i, k) == j
    decreases j - i
  {
    var m := NextShown(shown, i);
    assert i < m <= j;
    if m == j {
      assert VisibleArrowDowns(shown, i, 1) == j;
    } else {
      VisibleArrowDownReaches(shown, m, j);
      var k: nat :| VisibleArrowDowns(shown, m, k) == j;
      assert VisibleArrowDowns(shown, i, k + 1) == j;
    }
  }

  /** On the tree of `CollapsedItemBlocksArrowDown`, the corrected ArrowDown from item 0
      skips the hidden item 1 and lands on item 2. */
  lemma VisibleArrowDownSkipsCollapsed()
    ensures ShownItems([true], [Some(0)], [None, Some(0), None]) == [true, false, true]
    ensures VisibleKeyAction("ArrowDown", Some(0), [true, false, true], false, None) == MoveFocus(Some(2))
  {
    var s := ShownItems([true], [Some(0)], [None, Some(0), None]);
    assert !s[1] && s[2];
  }

  lemma PrefixMembership<T>(s: seq<T>, g: nat)
    requires g < |s|
    ensures forall x :: x in s[..g + 1] <==> x in s[..g] || x == s[g]
  {
    assert s[..g + 1] == s[..g] + [s[g]];
  }

  // ---- the tree ----

  class Tree {
    /** For each group, the tree item right before it, if that is one. */
    const groupController: seq<Option<nat>>
    /** For each item, the nearest group around it. */
    const itemGroup: seq<Option<nat>>
    /** Whether an item contains an element of class `twisty`. */
    const hasTwisty: seq<bool>

    const tabindex: array<int>
    const expanded: array<Option<string>>
    const selected: array<bool>
    const twisty: array<string>
    const hidden: array<bool>

    /** The item holding `document.activeElement`, if any. */
    var focus: Option<nat>

    /** The shape of the markup: one entry per item or group, links within range, and
        a group is controlled by one item and an item controls at most one group
        (each is the other's neighbouring sibling). */
    ghost predicate Wf()
      reads this
    {
      && tabindex.Length == expanded.Length == selected.Length == twisty.Length == |hasTwisty| == |itemGroup|
      && hidden.Length == |groupController|
      && selected != hidden
      && (forall g :: 0 <= g < |groupController| && groupController[g].Some? ==> groupController[g].value < tabindex.Length)
      && (forall j :: 0 <= j < |itemGroup| && itemGroup[j].Some? ==> itemGroup[j].value < |groupController|)
      && (forall g, h :: 0 <= g < h < |groupController| && groupController[g].Some? ==> groupController[g] != groupController[h])
      && Nested(groupController, itemGroup)
      && (focus.Some? ==> focus.value < tabindex.Length)
    }

    /** Groups agree with their controllers: what every handler restores. */
    ghost predicate Synced()
      reads this, expanded, hidden, twisty
      requires Wf()
    {
      && hidden[..] == SyncedHidden(expanded[..], groupController)
      && (forall j :: 0 <= j < twisty.Length && hasTwisty[j] && Some(j) in groupController ==>
            twisty[j] == TwistyText(IsOpen(expanded[j])))
    }

    ghost predicate Valid()
      reads this, expanded, hidden, twisty
    {
      Wf() && Synced()
    }

    /** The parent item ArrowLeft moves to: the controller of the group around `i`. */
    function ParentItem(i: nat): (p: Option<nat>)
      reads this
      requires Wf() && i < tabindex.Length
      ensures p.Some? ==> p.value < tabindex.Length
    {
      match itemGroup[i]
      case None => None
      case Some(g) => groupController[g]
    }

    /** The markup as it is loaded, then the script's start: the first item is
        selected and the groups are synchronised. */
    constructor (tabindex0: seq<int>, expanded0: seq<Option<string>>, selected0: seq<bool>, twisty0: seq<string>,
                 hidden0: seq<bool>, groupController: seq<Option<nat>>, itemGroup: seq<Option<nat>>, hasTwisty: seq<bool>,
                 focus0: Option<nat>)
      requires |tabindex0| == |expanded0| == |selected0| == |twisty0| == |hasTwisty| == |itemGroup|
      requires |hidden0| == |groupController|
      requires forall g :: 0 <= g < |groupController| && groupController[g].Some? ==> groupController[g].value < |tabindex0|
      requires forall j :: 0 <= j < |itemGroup| && itemGroup[j].Some? ==> itemGroup[j].value < |groupController|
      requires forall g, h :: 0 <= g < h < |groupController| && groupController[g].Some? ==> groupController[g] != groupController[h]
      requires Nested(groupController, itemGroup)
      requires focus0.Some? ==> focus0.value < |tabindex0|
      ensures Valid()
      ensures this.groupController == groupController && this.itemGroup == itemGroup && this.hasTwisty == hasTwisty
      ensures tabindex[..] == tabindex0 && expanded[..] == expanded0 && focus == focus0
      ensures selected[..] == if selected0 == [] then [] else selected0[0 := true]
      ensures twisty[..] == SyncedTwisty(twisty0, expanded0, groupController, hasTwisty)
      ensures fresh(tabindex) && fresh(expanded) && fresh(selected) && fresh(twisty) && fresh(hidden)
    {
      this.groupController, this.itemGroup, this.hasTwisty := groupController, itemGroup, hasTwisty;
      tabindex := new int[|tabindex0|](i requires 0 <= i < |tabindex0| => tabindex0[i]);
      expanded := new Option<string>[|expanded0|](i requires 0 <= i < |expanded0| => expanded0[i]);
      selected := new bool[|selected0|](i requires 0 <= i < |selected0| => selected0[i]);
      twisty := new string[|twisty0|](i requires 0 <= i < |twisty0| => twisty0[i]);
      hidden := new bool[|hidden0|](i requires 0 <= i < |hidden0| => hidden0[i]);
      focus := focus0;
      new;
      if selected.Length > 0 {
        selected[0] := true;
      }
      assert tabindex[..] == tabindex0 && expanded[..] == expanded0 && twisty[..] == twisty0;
      SyncGroups();
    }

    /** `syncGroups()`: each group hidden exactly when its controller is not open, and
        each controller's twisty showing its state. */
    method SyncGroups()
      requires Wf()
      modifies hidden, twisty
      ensures Valid()
      ensures hidden[..] == SyncedHidden(expanded[..], groupController)
      ensures twisty[..] == SyncedTwisty(old(twisty[..]), expanded[..], groupController, hasTwisty)
    {
      var g := 0;
      while g < hidden.Length
        invariant 0 <= g <= hidden.Length
        invariant forall k :: 0 <= k < g ==> hidden[k] == !ControllerOpen(expanded[..], groupController[k])
        invariant forall j :: 0 <= j < twisty.Length ==>
          twisty[j] == if hasTwisty[j] && Some(j) in groupController[..g] then TwistyText(IsOpen(expanded[j])) else old(twisty[j])
      {
        var c := groupController[g];
        var open := c.Some? && IsOpen(expanded[c.value]);
        assert open == ControllerOpen(expanded[..], c);
        hidden[g] := !open;
        PrefixMembership(groupController, g);
        if c.Some? && hasTwisty[c.value] {
          ControllerOnce(g);
          twisty[c.value] := TwistyText(open);
        }
        g := g + 1;
      }
      assert groupController[..g] == groupController;
    }

    /** A group's controller controls no earlier group. */
    lemma ControllerOnce(g: nat)
      requires Wf() && g < |groupController| && groupController[g].Some?
      ensures groupController[g] !in groupController[..g]
    {
      forall k | 0 <= k < g ensures groupController[..g][k] != groupController[g] {
        assert groupController[..g][k] == groupController[k];
      }
    }

    /** `setOnlyTabbable(el)`: every item gets tabindex -1, then `el`, if given, gets 0;
        `el?.focus()` moves the focus to `el` only when it is rendered. */
    method SetOnlyTabbable(el: Option<nat>)
      requires Valid() && (el.Some? ==> el.value < tabindex.Length)
      modifies this`focus, tabindex
      ensures Valid()
      ensures tabindex[..] == OnlyTabbable(tabindex.Length, el)
      ensures focus == Focused(hidden[..], groupController, itemGroup, old(focus), el)
    {
      var j := 0;
      while j < tabindex.Length
        modifies tabindex
        invariant 0 <= j <= tabindex.Length
        invariant forall k :: 0 <= k < j ==> tabindex[k] == -1
      {
        tabindex[j] := -1;
        j := j + 1;
      }
      if el.Some? {
        tabindex[el.value] := 0;
        if Displayed(hidden[..], groupController, itemGroup, el.value) {
          focus := el;
        }
      }
    }

    /** `toggle(item)`: a leaf is left alone; otherwise its `aria-expanded` flips and the
        groups are synchronised. */
    method Toggle(i: nat)
      requires Valid() && i < expanded.Length
      modifies expanded, hidden, twisty
      ensures Valid()
      ensures expanded[..] == old(expanded[..])[i := Toggled(old(expanded[i]))]
      ensures old(expanded[i]).None? ==> hidden[..] == old(hidden[..]) && twisty[..] == old(twisty[..])
      ensures hidden[..] == SyncedHidden(expanded[..], groupController)
      ensures twisty[..] == SyncedTwisty(old(twisty[..]), expanded[..], groupController, hasTwisty)
    {
      if expanded[i].None? {
        assert expanded[..] == old(expanded[..])[i := Toggled(old(expanded[i]))];
        assert twisty[..] == SyncedTwisty(old(twisty[..]), expanded[..], groupController, hasTwisty);
        return;
      }
      var open := IsOpen(expanded[i]);
      expanded[i] := Some(if open then "false" else "true");
      SyncGroups();
    }

    /** The click handler. `target` is the item around the clicked element, `onTwisty`
        whether that element is a twisty and `detail` the click count. */
    method Click(target: Option<nat>, onTwisty: bool, detail: int)
      requires Valid() && (target.Some? ==> target.value < tabindex.Length)
      modifies this`focus, tabindex, expanded, selected, hidden, twisty
      ensures Valid()
      ensures target.None? ==>
        && focus == old(focus) && tabindex[..] == old(tabindex[..]) && expanded[..] == old(expanded[..])
        && selected[..] == old(selected[..]) && hidden[..] == old(hidden[..]) && twisty[..] == old(twisty[..])
      ensures target.Some? && (onTwisty || detail == 2) ==>
        && expanded[..] == old(expanded[..])[target.value := Toggled(old(expanded[target.value]))]
        && hidden[..] == SyncedHidden(expanded[..], groupController)
        && twisty[..] == SyncedTwisty(old(twisty[..]), expanded[..], groupController, hasTwisty)
        && focus == old(focus) && tabindex[..] == old(tabindex[..]) && selected[..] == old(selected[..])
      ensures target.Some? && !(onTwisty || detail == 2) ==>
        && (forall j :: 0 <= j < selected.Length ==> (selected[j] <==> j == target.value))
        && tabindex[..] == OnlyTabbable(tabindex.Length, target)
        && focus == Focused(hidden[..], groupController, itemGroup, old(focus), target)
        && expanded[..] == old(expanded[..]) && hidden[..] == old(hidden[..]) && twisty[..] == old(twisty[..])
    {
      if target.None? {
        return;
      }
      var item := target.value;
      if onTwisty || detail == 2 {
        Toggle(item);
      } else {
        var j := 0;
        while j < selected.Length
          modifies selected
          invariant 0 <= j <= selected.Length
          invariant forall k :: 0 <= k < j ==> !selected[k]
        {
          selected[j] := false;
          j := j + 1;
        }
        selected[item] := true;
        SetOnlyTabbable(target);
      }
    }

    /** What a key press changed, between the state before it and now: a focus move
        rewrites the tabindex values and moves the focus if the target is rendered; a
        toggle flips one item and re-synchronises the groups; nothing else changes. */
    twostate predicate Performed(a: Action)
      reads this, tabindex, expanded, hidden, twisty
      requires Wf()
    {
      match a
      case MoveFocus(t) =>
        && tabindex[..] == OnlyTabbable(tabindex.Length, t)
        && focus == Focused(hidden[..], groupController, itemGroup, old(focus), t)
        && expanded[..] == old(expanded[..]) && hidden[..] == old(hidden[..]) && twisty[..] == old(twisty[..])
      case ToggleAt(i) =>
        && i < expanded.Length
        && expanded[..] == old(expanded[..])[i := Toggled(old(expanded[i]))]
        && hidden[..] == SyncedHidden(expanded[..], groupController)
        && twisty[..] == SyncedTwisty(old(twisty[..]), expanded[..], groupController, hasTwisty)
        && focus == old(focus) && tabindex[..] == old(tabindex[..])
      case Ignore =>
        && focus == old(focus) && tabindex[..] == old(tabindex[..])
        && expanded[..] == old(expanded[..]) && hidden[..] == old(hidden[..]) && twisty[..] == old(twisty[..])
    }

    /** Carries out a key press's decision: `setOnlyTabbable`, `toggle`, or nothing. */
    method Perform(a: Action)
      requires Valid()
      requires a.MoveFocus? && a.target.Some? ==> a.target.value < tabindex.Length
      requires a.ToggleAt? ==> a.item < expanded.Length
      modifies this`focus, tabindex, expanded, hidden, twisty
      ensures Valid() && Performed(a)
    {
      match a {
        case MoveFocus(t) => SetOnlyTabbable(t);
        case ToggleAt(k) => Toggle(k);
        case Ignore =>
      }
    }

    /** The keydown handler: does what `KeyAction` decides, and reports whether the
        default action was prevented. */
    method Keydown(key: string) returns (prevented: bool)
      requires Valid()
      modifies this`focus, tabindex, expanded, hidden, twisty
      ensures Valid()
      ensures prevented <==> Handled(key, old(focus))
      ensures selected[..] == old(selected[..])
      ensures Performed(KeyAction(key, old(focus), tabindex.Length,
                                  old(focus).Some? && IsOpen(old(expanded[focus.value])),
                                  if old(focus).Some? then ParentItem(old(focus).value) else None))
    {
      var parent := if focus.Some? then ParentItem(focus.value) else None;
      var a := KeyAction(key, focus, tabindex.Length, focus.Some? && IsOpen(expanded[focus.value]), parent);
      KeyActionInRange(key, focus, tabindex.Length, focus.Some? && IsOpen(expanded[focus.value]), parent);
      prevented := Handled(key, focus);
      Perform(a);
    }

    /** The keydown handler as the ARIA tree pattern intends it: the arrow keys, Home and
        End move among the rendered items (`VisibleKeyAction`), so from a rendered item
        the focus always lands on the target. */
    method KeydownVisible(key: string) returns (prevented: bool)
      requires Valid()
      modifies this`focus, tabindex, expanded, hidden, twisty
      ensures Valid()
      ensures prevented <==> Handled(key, old(focus))
      ensures selected[..] == old(selected[..])
      ensures Performed(VisibleKeyAction(key, old(focus), ShownItems(old(hidden[..]), groupController, itemGroup),
                                         old(focus).Some? && IsOpen(old(expanded[focus.value])),
                                         if old(focus).Some? then ParentItem(old(focus).value) else None))
      ensures old(focus).Some? && Displayed(old(hidden[..]), groupController, itemGroup, old(focus).value) ==>
        var a := VisibleKeyAction(key, old(focus), ShownItems(old(hidden[..]), groupController, itemGroup),
                                  IsOpen(old(expanded[focus.value])), ParentItem(old(focus).value));
        a.MoveFocus? ==> focus == a.target && Displayed(hidden[..], groupController, itemGroup, focus.value)
    {
      var shown := ShownItems(hidden[..], groupController, itemGroup);
      var parent := if focus.Some? then ParentItem(focus.value) else None;
      var open := focus.Some? && IsOpen(expanded[focus.value]);
      var a := VisibleKeyAction(key, focus, shown, open, parent);
      if focus.Some? {
        var i := focus.value;
        KeyActionInRange(key, focus, tabindex.Length, open, parent);
        if shown[i] {
          if itemGroup[i].Some? && groupController[itemGroup[i].value].Some? {
            DisplayedParent(hidden[..], groupController, itemGroup, i);
          }
          VisibleMoveTakesEffect(hidden[..], groupController, itemGroup, key, i, open, parent);
        }
      }
      prevented := Handled(key, focus);
      Perform(a);
    }
  }
}
