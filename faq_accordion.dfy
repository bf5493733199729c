/**
 * The FAQ accordion: an ordered map from FAQ items to their expansion state,
 * with a single-open policy, bulk operations and keyboard handling.
 *
 * An item is identified by its position in the map's insertion order; an
 * index outside the map plays the part of an element that is not a key.
 * The attributes that the accordion writes on the item's own elements
 * (`data-expanded` on the item, `aria-expanded` on its toggle button,
 * `aria-hidden` on its answer panel) are kept with the item's state,
 * since no two items share an element.
 */
module FaqAccordion {
  import opened Wrappers

  /** One entry of the accordion's map and the attributes of its elements. */
  datatype Item = Item(
    category: Option<string>,     // data-category of the item element
    isExpanded: bool,             // FAQState.isExpanded
    dataExpanded: bool,           // the item element carries data-expanded="true"
    ariaExpanded: Option<string>, // aria-expanded of the toggle button
    ariaHidden: Option<string>)   // aria-hidden of the answer panel

  /** A `.faq-item` as the page delivers it, before the accordion takes it over. */
  datatype Markup = Markup(
    hasButton: bool,              // contains a [data-faq-toggle] button
    hasAnswer: bool,              // contains a .faq-answer panel
    hasIcon: bool,                // contains a .faq-icon
    category: Option<string>,
    dataExpanded: bool,
    ariaExpanded: Option<string>,
    ariaHidden: Option<string>)

  /** The keys the toggle buttons react to; every other key is OtherKey. */
  datatype Key = Enter | Space | ArrowDown | ArrowUp | Home | End | Escape | OtherKey

  /** The events that reach the accordion: a click on a toggle, a key on a toggle, the public bulk calls. */
  datatype Op =
    | Click(i: int)
    | KeyDown(key: Key, i: int)
    | ExpandAllOp
    | CollapseAllOp
    | ExpandByCategoryOp(category: string)

  predicate Complete(m: Markup) {
    m.hasButton && m.hasAnswer && m.hasIcon
  }

  /** The state recorded for a complete item: collapsed, attributes as in the markup. */
  function Adopt(m: Markup): Item {
    Item(m.category, false, m.dataExpanded, m.ariaExpanded, m.ariaHidden)
  }

  /** The map built by setupFAQ: complete items in document order, incomplete ones skipped. */
  function Setup(ms: seq<Markup>): (r: seq<Item>)
    ensures |r| <= |ms|
    ensures forall j :: 0 <= j < |r| ==> !r[j].isExpanded
    ensures forall it :: it in r <==> exists k :: 0 <= k < |ms| && Complete(ms[k]) && it == Adopt(ms[k])
    ensures (forall k :: 0 <= k < |ms| ==> Complete(ms[k])) ==> |r| == |ms| && forall k :: 0 <= k < |ms| ==> r[k] == Adopt(ms[k])
  {
    if ms == [] then []
    else
      var m := ms[|ms| - 1];
      var front := ms[..|ms| - 1];
      assert forall k :: 0 <= k < |front| ==> front[k] == ms[k];
      Setup(front) + (if Complete(m) then [Adopt(m)] else [])
  }

  /** The attributes written by collapseFAQ. */
  function Collapsed(it: Item): Item {
    it.(isExpanded := false, dataExpanded := false, ariaExpanded := Some("false"), ariaHidden := Some("true"))
  }

  /** The attributes written by expandFAQ. */
  function Expanded(it: Item): Item {
    it.(isExpanded := true, dataExpanded := true, ariaExpanded := Some("true"), ariaHidden := Some("false"))
  }

  /** The attributes of the item's elements agree with its flag. */
  predicate Mirrors(it: Item) {
    && it.dataExpanded == it.isExpanded
    && it.ariaExpanded == Some(if it.isExpanded then "true" else "false")
    && it.ariaHidden == Some(if it.isExpanded then "false" else "true")
  }

  predicate Mirrored(s: seq<Item>) {
    forall j :: 0 <= j < |s| ==> Mirrors(s[j])
  }

  /** The single-open invariant. */
  predicate AtMostOne(s: seq<Item>) {
    forall a, b :: 0 <= a < |s| && 0 <= b < |s| && s[a].isExpanded && s[b].isExpanded ==> a == b
  }

  /** collapseFAQ: only item i changes, and it becomes collapsed. */
  function Collapse(s: seq<Item>, i: int): (r: seq<Item>)
    ensures |r| == |s|
    ensures forall j :: 0 <= j < |s| && j != i ==> r[j] == s[j]
    ensures 0 <= i < |s| ==> !r[i].isExpanded && Mirrors(r[i]) && r[i].category == s[i].category
    ensures !(0 <= i < |s|) ==> r == s
  {
    if 0 <= i < |s| then s[i := Collapsed(s[i])] else s
  }

  /** closeAllOtherItems: every expanded item other than `current` is collapsed. */
  function CloseOthers(s: seq<Item>, current: int): (r: seq<Item>)
    ensures |r| == |s|
    ensures forall j :: 0 <= j < |s| && j != current ==> !r[j].isExpanded
    ensures forall j :: 0 <= j < |s| && (j == current || !s[j].isExpanded) ==> r[j] == s[j]
    ensures forall j :: 0 <= j < |s| && j != current && s[j].isExpanded ==> r[j] == Collapsed(s[j])
  {
    seq(|s|, j requires 0 <= j < |s| => if j != current && s[j].isExpanded then Collapsed(s[j]) else s[j])
  }

  /** expandFAQ: under the single-open policy every other item is closed first. */
  function Expand(s: seq<Item>, i: int, allowMultiple: bool): (r: seq<Item>)
    ensures |r| == |s|
    ensures 0 <= i < |s| ==> r[i].isExpanded && Mirrors(r[i]) && r[i].category == s[i].category
    ensures !(0 <= i < |s|) ==> r == s
    ensures allowMultiple ==> forall j :: 0 <= j < |s| && j != i ==> r[j] == s[j]
    ensures !allowMultiple && 0 <= i < |s| ==> forall j :: 0 <= j < |s| && j != i ==> !r[j].isExpanded
    ensures forall j :: 0 <= j < |s| && j != i ==> r[j] == s[j] || r[j] == Collapsed(s[j])
    ensures 0 <= i < |s| ==> r[i] == Expanded(s[i])
    ensures !allowMultiple && 0 <= i < |s| ==>
      forall j :: 0 <= j < |s| && j != i ==> r[j] == (if s[j].isExpanded then Collapsed(s[j]) else s[j])
  {
    if 0 <= i < |s| then
      var t := if allowMultiple then s else CloseOthers(s, i);
      t[i := Expanded(t[i])]
    else s
  }

  /** toggleFAQ: an expanded item collapses, a collapsed one expands, an unknown one is ignored. */
  function Toggle(s: seq<Item>, i: int, allowMultiple: bool): (r: seq<Item>)
    ensures |r| == |s|
    ensures 0 <= i < |s| ==> r[i].isExpanded == !s[i].isExpanded
    ensures 0 <= i < |s| ==> r[i] == (if s[i].isExpanded then Collapsed(s[i]) else Expanded(s[i]))
    ensures 0 <= i < |s| && (s[i].isExpanded || allowMultiple) ==>
      forall j :: 0 <= j < |s| && j != i ==> r[j] == s[j]
    ensures 0 <= i < |s| && !s[i].isExpanded && !allowMultiple ==>
      forall j :: 0 <= j < |s| && j != i ==> r[j] == (if s[j].isExpanded then Collapsed(s[j]) else s[j])
    ensures !(0 <= i < |s|) ==> r == s
  {
    if 0 <= i < |s| then
      if s[i].isExpanded then Collapse(s, i) else Expand(s, i, allowMultiple)
    else s
  }

  /** The items expandAll (no category) and expandByCategory(c) act on. */
  predicate Picked(it: Item, category: Option<string>) {
    match category
    case None => true
    case Some(c) => it.category == Some(c)
  }

  /**
   * The first n steps of expandAll / expandByCategory: each picked item that
   * is collapsed when its turn comes is expanded through expandFAQ.
   */
  function ExpandPicked(s: seq<Item>, allowMultiple: bool, category: Option<string>, n: nat): (r: seq<Item>)
    requires n <= |s|
    ensures |r| == |s|
    ensures forall j :: 0 <= j < |s| ==> r[j].category == s[j].category
    ensures allowMultiple ==> forall j :: 0 <= j < |s| && s[j].isExpanded ==> r[j].isExpanded
    ensures allowMultiple ==> forall j :: 0 <= j < n && Picked(s[j], category) ==> r[j].isExpanded
    ensures allowMultiple ==> forall j :: 0 <= j < |s| ==>
      r[j] == (if j < n && Picked(s[j], category) && !s[j].isExpanded then Expanded(s[j]) else s[j])
    ensures forall j :: 0 <= j < |s| && !(j < n && Picked(s[j], category)) ==> r[j] == s[j] || r[j] == Collapsed(s[j])
    ensures forall j :: 0 <= j < |s| ==> r[j] == s[j] || r[j] == Collapsed(s[j]) || r[j] == Expanded(s[j])
    decreases n
  {
    if n == 0 then s
    else
      var t := ExpandPicked(s, allowMultiple, category, n - 1);
      if Picked(t[n - 1], category) && !t[n - 1].isExpanded then Expand(t, n - 1, allowMultiple) else t
  }

  /** One more step of expandAll / expandByCategory. */
  lemma ExpandPickedStep(s: seq<Item>, allowMultiple: bool, category: Option<string>, k: nat)
    requires k < |s|
    ensures var t := ExpandPicked(s, allowMultiple, category, k);
      ExpandPicked(s, allowMultiple, category, k + 1)
        == if Picked(t[k], category) && !t[k].isExpanded then Expand(t, k, allowMultiple) else t
  {
  }

  /** The first n steps of collapseAll: each expanded item is collapsed through collapseFAQ. */
  function CollapseUpTo(s: seq<Item>, n: nat): (r: seq<Item>)
    requires n <= |s|
    ensures |r| == |s|
    ensures forall j :: 0 <= j < n ==> !r[j].isExpanded
    ensures forall j :: 0 <= j < |s| && (n <= j || !s[j].isExpanded) ==> r[j] == s[j]
    ensures forall j :: 0 <= j < n && s[j].isExpanded ==> r[j] == Collapsed(s[j])
    decreases n
  {
    if n == 0 then s
    else
      var t := CollapseUpTo(s, n - 1);
      if t[n - 1].isExpanded then Collapse(t, n - 1) else t
  }

  /** `(i + 1) % n` steps forward and wraps from the last index to the first. */
  lemma NextWraps(i: nat, n: nat)
    requires i < n
    ensures (i + 1) % n == if i == n - 1 then 0 else i + 1
  {
    if i == n - 1 {
      assert (i + 1) % n == n % n == 0;
    }
  }

  /** The index handleKeyboard moves focus to, if the key moves focus at all. */
  function FocusTarget(key: Key, i: nat, n: nat): (r: Option<nat>)
    requires i < n
    ensures r.Some? ==> r.value < n
    ensures r.Some? <==> key == ArrowDown || key == ArrowUp || key == Home || key == End
    ensures key == ArrowDown ==> r == Some(if i == n - 1 then 0 else i + 1)
    ensures key == ArrowUp ==> r == Some(if i == 0 then n - 1 else i - 1)
    ensures key == Home ==> r == Some(0)
    ensures key == End ==> r == Some(n - 1)
  {
    match key
    case ArrowDown => NextWraps(i, n); Some((i + 1) % n)
    case ArrowUp => Some(if i == 0 then n - 1 else i - 1)
    case Home => Some(0)
    case End => Some(n - 1)
    case _ => None
  }

  /** What handleKeyboard does to the expansion state. */
  function KeyEffect(s: seq<Item>, allowMultiple: bool, key: Key, i: int): (r: seq<Item>)
    ensures |r| == |s|
    ensures key == Enter || key == Space ==> r == Toggle(s, i, allowMultiple)
    ensures key == Escape ==> forall j :: 0 <= j < |s| ==> (r[j].isExpanded ==> s[j].isExpanded)
    ensures key == Escape && 0 <= i < |s| ==> !r[i].isExpanded
    ensures key == Escape ==> forall j :: 0 <= j < |s| && j != i ==> r[j] == s[j]
    ensures key == Escape && !(0 <= i < |s| && s[i].isExpanded) ==> r == s
    ensures key == Escape && 0 <= i < |s| && s[i].isExpanded ==> r[i] == Collapsed(s[i])
    ensures key != Enter && key != Space && key != Escape ==> r == s
  {
    match key
    case Enter => Toggle(s, i, allowMultiple)
    case Space => Toggle(s, i, allowMultiple)
    case Escape => if 0 <= i < |s| && s[i].isExpanded then Collapse(s, i) else s
    case _ => s
  }

  function Apply(s: seq<Item>, allowMultiple: bool, op: Op): (r: seq<Item>)
    ensures |r| == |s|
  {
    match op
    case Click(i) => Toggle(s, i, allowMultiple)
    case KeyDown(key, i) => KeyEffect(s, allowMultiple, key, i)
    case ExpandAllOp => ExpandPicked(s, allowMultiple, None, |s|)
    case CollapseAllOp => CollapseUpTo(s, |s|)
    case ExpandByCategoryOp(c) => ExpandPicked(s, allowMultiple, Some(c), |s|)
  }

  function Run(s: seq<Item>, allowMultiple: bool, ops: seq<Op>): (r: seq<Item>)
    ensures |r| == |s|
    decreases |ops|
  {
    if ops == [] then s else Run(Apply(s, allowMultiple, ops[0]), allowMultiple, ops[1..])
  }

  // ---------------------------------------------------------------- lemmas

  /** Toggling twice restores the expansion flags when several items may be open. */
  lemma ToggleTwice(s: seq<Item>, i: int)
    requires Mirrored(s)
    ensures Toggle(Toggle(s, i, true), i, true) == s
  {
    if 0 <= i < |s| {
      var r := Toggle(Toggle(s, i, true), i, true);
      assert forall j :: 0 <= j < |s| ==> r[j] == s[j];
    }
  }

  lemma {:induction false} ExpandPickedExclusive(s: seq<Item>, category: Option<string>, n: nat)
    requires n <= |s| && AtMostOne(s)
    ensures AtMostOne(ExpandPicked(s, false, category, n))
  {
    if n > 0 {
      ExpandPickedExclusive(s, category, n - 1);
    }
  }

  /** expandFAQ writes every attribute it touches consistently. */
  lemma ExpandKeepsMirrored(s: seq<Item>, i: int, allowMultiple: bool)
    requires Mirrored(s)
    ensures Mirrored(Expand(s, i, allowMultiple))
  {
    var r := Expand(s, i, allowMultiple);
    forall j | 0 <= j < |r|
      ensures Mirrors(r[j])
    {
      if j != i && r[j] != s[j] {
        assert r[j] == Collapsed(s[j]);
      }
    }
  }

  lemma ToggleKeepsMirrored(s: seq<Item>, i: int, allowMultiple: bool)
    requires Mirrored(s)
    ensures Mirrored(Toggle(s, i, allowMultiple))
  {
    if 0 <= i < |s| && !s[i].isExpanded {
      ExpandKeepsMirrored(s, i, allowMultiple);
    }
  }

  lemma {:induction false} ExpandPickedMirrored(s: seq<Item>, allowMultiple: bool, category: Option<string>, n: nat)
    requires n <= |s| && Mirrored(s)
    ensures Mirrored(ExpandPicked(s, allowMultiple, category, n))
  {
    if n > 0 {
      ExpandPickedMirrored(s, allowMultiple, category, n - 1);
      var t := ExpandPicked(s, allowMultiple, category, n - 1);
      ExpandKeepsMirrored(t, n - 1, allowMultiple);
    }
  }

  /**
   * Under the single-open policy expandAll ends with exactly the last item
   * expanded: every expandFAQ call closes the item expanded just before it.
   */
  lemma {:induction false} ExpandAllLeavesLast(s: seq<Item>, n: nat)
    requires 1 <= n <= |s| && AtMostOne(s)
    ensures forall j :: 0 <= j < |s| ==> (ExpandPicked(s, false, None, n)[j].isExpanded <==> j == n - 1)
  {
    ExpandPickedLeavesLast(s, None, n, n - 1);
  }

  /**
   * Under the single-open policy, after the first n steps of expandAll or
   * expandByCategory the last picked item among them is the only one open.
   */
  lemma {:induction false} ExpandPickedLeavesLast(s: seq<Item>, category: Option<string>, n: nat, p: nat)
    requires n <= |s| && AtMostOne(s)
    requires p < n && Picked(s[p], category)
    requires forall k :: p < k < n ==> !Picked(s[k], category)
    ensures forall j :: 0 <= j < |s| ==> (ExpandPicked(s, false, category, n)[j].isExpanded <==> j == p)
  {
    var t := ExpandPicked(s, false, category, n - 1);
    assert ExpandPicked(s, false, category, n) == if Picked(t[n - 1], category) && !t[n - 1].isExpanded then Expand(t, n - 1, false) else t;
    if n - 1 == p {
      if t[p].isExpanded {
        ExpandPickedExclusive(s, category, n - 1);
      }
    } else {
      assert t[n - 1].category == s[n - 1].category;
      ExpandPickedLeavesLast(s, category, n - 1, p);
    }
  }

  /** expandAll and expandByCategory change nothing when no item among the first n is picked. */
  lemma {:induction false} ExpandPickedNonePicked(s: seq<Item>, allowMultiple: bool, category: Option<string>, n: nat)
    requires n <= |s|
    requires forall k :: 0 <= k < n ==> !Picked(s[k], category)
    ensures ExpandPicked(s, allowMultiple, category, n) == s
  {
    if n > 0 {
      ExpandPickedNonePicked(s, allowMultiple, category, n - 1);
    }
  }

  /** With several items allowed open, expandAll opens them all. */
  lemma ExpandAllOpensAll(s: seq<Item>)
    ensures forall j :: 0 <= j < |s| ==> ExpandPicked(s, true, None, |s|)[j].isExpanded
  {
  }

  /** collapseAll leaves nothing open and does not touch the items that were already closed. */
  lemma CollapseAllClosesAll(s: seq<Item>)
    ensures forall j :: 0 <= j < |s| ==> !CollapseUpTo(s, |s|)[j].isExpanded
    ensures forall j :: 0 <= j < |s| && !s[j].isExpanded ==> CollapseUpTo(s, |s|)[j] == s[j]
  {
  }

  lemma ApplyExclusive(s: seq<Item>, op: Op)
    requires AtMostOne(s)
    ensures AtMostOne(Apply(s, false, op))
  {
    match op
    case ExpandAllOp => ExpandPickedExclusive(s, None, |s|);
    case ExpandByCategoryOp(c) => ExpandPickedExclusive(s, Some(c), |s|);
    case _ =>
  }

  lemma ApplyMirrored(s: seq<Item>, allowMultiple: bool, op: Op)
    requires Mirrored(s)
    ensures Mirrored(Apply(s, allowMultiple, op))
  {
    match op
    case Click(i) => ToggleKeepsMirrored(s, i, allowMultiple);
    case KeyDown(key, i) =>
      if key == Enter || key == Space {
        ToggleKeepsMirrored(s, i, allowMultiple);
      }
    case ExpandAllOp => ExpandPickedMirrored(s, allowMultiple, None, |s|);
    case ExpandByCategoryOp(c) => ExpandPickedMirrored(s, allowMultiple, Some(c), |s|);
    case CollapseAllOp =>
  }

  /** Under the single-open policy no sequence of events opens two items. */
  lemma {:induction false} RunExclusive(s: seq<Item>, ops: seq<Op>)
    requires AtMostOne(s)
    ensures AtMostOne(Run(s, false, ops))
    decreases |ops|
  {
    if ops != [] {
      ApplyExclusive(s, ops[0]);
      RunExclusive(Apply(s, false, ops[0]), ops[1..]);
    }
  }

  /**
   * Starting from the markup the page ships (aria-expanded="false",
   * aria-hidden="true", no data-expanded), the ARIA attributes mirror the
   * expansion flags after any sequence of events.
   */
  lemma {:induction false} RunMirrored(ms: seq<Markup>, allowMultiple: bool, ops: seq<Op>)
    requires forall k :: 0 <= k < |ms| ==>
      !ms[k].dataExpanded && ms[k].ariaExpanded == Some("false") && ms[k].ariaHidden == Some("true")
    ensures Mirrored(Run(Setup(ms), allowMultiple, ops))
  {
    SetupMirrored(ms);
    RunKeepsMirrored(Setup(ms), allowMultiple, ops);
  }

  lemma {:induction false} SetupMirrored(ms: seq<Markup>)
    requires forall k :: 0 <= k < |ms| ==>
      !ms[k].dataExpanded && ms[k].ariaExpanded == Some("false") && ms[k].ariaHidden == Some("true")
    ensures Mirrored(Setup(ms))
  {
    if ms != [] {
      SetupMirrored(ms[..|ms| - 1]);
    }
  }

  lemma {:induction false} RunKeepsMirrored(s: seq<Item>, allowMultiple: bool, ops: seq<Op>)
    requires Mirrored(s)
    ensures Mirrored(Run(s, allowMultiple, ops))
    decreases |ops|
  {
    if ops != [] {
      ApplyMirrored(s, allowMultiple, ops[0]);
      RunKeepsMirrored(Apply(s, allowMultiple, ops[0]), allowMultiple, ops[1..]);
    }
  }

  /** ArrowUp undoes ArrowDown and ArrowDown undoes ArrowUp: the focus ring wraps both ways. */
  lemma FocusWraps(i: nat, n: nat)
    requires i < n
    ensures FocusTarget(ArrowUp, FocusTarget(ArrowDown, i, n).value, n) == Some(i)
    ensures FocusTarget(ArrowDown, FocusTarget(ArrowUp, i, n).value, n) == Some(i)
  {
  }

  // ---------------------------------------------------------------- the accordion object

  class Accordion {
    var items: seq<Item>
    var allowMultiple: bool

    /** setupFAQ on the page's `.faq-item` elements, with the single-open policy. */
    constructor (markup: seq<Markup>)
      ensures items == Setup(markup) && !allowMultiple
    {
      var built: seq<Item> := [];
      for k := 0 to |markup|
        invariant built == Setup(markup[..k])
      {
        assert markup[..k + 1][..k] == markup[..k];
        if Complete(markup[k]) {
          built := built + [Adopt(markup[k])];
        }
      }
      assert markup[..|markup|] == markup;
      items := built;
      allowMultiple := false;
    }

    method CollapseFaq(i: int)
      modifies this
      ensures items == Collapse(old(items), i) && allowMultiple == old(allowMultiple)
    {
      if 0 <= i < |items| {
        items := items[i := Collapsed(items[i])];
      }
    }

    method CloseAllOtherItems(current: int)
      modifies this
      ensures items == CloseOthers(old(items), current) && allowMultiple == old(allowMultiple)
    {
      ghost var s := items;
      for j := 0 to |items|
        invariant |items| == |s| && allowMultiple == old(allowMultiple)
        invariant forall k :: 0 <= k < j ==>
          items[k] == (if k != current && s[k].isExpanded then Collapsed(s[k]) else s[k])
        invariant forall k :: j <= k < |items| ==> items[k] == s[k]
      {
        if j != current && items[j].isExpanded {
          CollapseFaq(j);
        }
      }
      assert forall k :: 0 <= k < |s| ==> items[k] == CloseOthers(s, current)[k];
    }

    method ExpandFaq(i: int)
      modifies this
      ensures items == Expand(old(items), i, allowMultiple) && allowMultiple == old(allowMultiple)
    {
      if 0 <= i < |items| {
        if !allowMultiple {
          CloseAllOtherItems(i);
        }
        items := items[i := Expanded(items[i])];
      }
    }

    method ToggleFaq(i: int)
      modifies this
      ensures items == Toggle(old(items), i, allowMultiple) && allowMultiple == old(allowMultiple)
    {
      if 0 <= i < |items| {
        if items[i].isExpanded {
          CollapseFaq(i);
        } else {
          ExpandFaq(i);
        }
      }
    }

    /** A keydown on the toggle of item i; the result is the index that receives focus. */
    method HandleKeyboard(key: Key, i: nat) returns (focus: Option<nat>)
      requires i < |items|
      modifies this
      ensures focus == FocusTarget(key, i, |old(items)|)
      ensures items == KeyEffect(old(items), old(allowMultiple), key, i) && allowMultiple == old(allowMultiple)
    {
      var n := |items|;
      focus := None;
      match key {
        case Enter => ToggleFaq(i);
        case Space => ToggleFaq(i);
        case ArrowDown => focus := Some((i + 1) % n);
        case ArrowUp => focus := Some(if i == 0 then n - 1 else i - 1);
        case Home => focus := Some(0);
        case End => focus := Some(n - 1);
        case Escape =>
          if items[i].isExpanded {
            CollapseFaq(i);
          }
        case OtherKey =>
      }
    }

    method ExpandAll()
      modifies this
      ensures items == ExpandPicked(old(items), allowMultiple, None, |old(items)|)
      ensures allowMultiple == old(allowMultiple)
    {
      ghost var s := items;
      for k := 0 to |items|
        invariant items == ExpandPicked(s, allowMultiple, None, k) && allowMultiple == old(allowMultiple)
      {
        ExpandPickedStep(s, allowMultiple, None, k);
        if !items[k].isExpanded {
          ExpandFaq(k);
        }
      }
    }

    method CollapseAll()
      modifies this
      ensures items == CollapseUpTo(old(items), |old(items)|) && allowMultiple == old(allowMultiple)
    {
      ghost var s := items;
      for k := 0 to |items|
        invariant items == CollapseUpTo(s, k) && allowMultiple == old(allowMultiple)
      {
        if items[k].isExpanded {
          CollapseFaq(k);
        }
      }
    }

    method ExpandByCategory(category: string)
      modifies this
      ensures items == ExpandPicked(old(items), allowMultiple, Some(category), |old(items)|)
      ensures allowMultiple == old(allowMultiple)
    {
      ghost var s := items;
      for k := 0 to |items|
        invariant items == ExpandPicked(s, allowMultiple, Some(category), k) && allowMultiple == old(allowMultiple)
      {
        ExpandPickedStep(s, allowMultiple, Some(category), k);
        if items[k].category == Some(category) && !items[k].isExpanded {
          ExpandFaq(k);
        }
      }
    }
  }
}
