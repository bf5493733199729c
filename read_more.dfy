/**
 * The two read-more widgets of the testimonials page, in the TypeScript
 * version and its older JavaScript twin: expandable quotes (a class toggle
 * with aria-expanded, a label and an animated height) and read-more buttons
 * that switch a content element's max-height between three lines and its
 * full height.
 */
module ReadMore {
  import opened Wrappers

  const Expandable: string := "expandable"
  const Expanded: string := "expanded"
  const ShowLess: string := "Show less"
  const ReadMoreLower: string := "Read more"
  const ReadLess: string := "Read Less"
  const ReadMoreUpper: string := "Read More"
  const MaxLines: int := 3
  const Transitions: set<string> := {"transition-all", "duration-300", "ease-in-out"}

  // ---------------------------------------------------------------- expandable quotes

  /** The `.expand-button` of a quote, with the text of its `.button-text` child if it has one. */
  datatype QuoteButton = QuoteButton(hidden: bool, ariaExpanded: Option<string>, buttonText: Option<string>, listening: bool)

  /**
   * A `.testimonial-quote`: its classes, the scrollHeight of its
   * `.quote-content` if present, the height the animation targets, and its button.
   */
  datatype Quote = Quote(classes: set<string>, contentHeight: Option<int>, height: Option<int>, button: Option<QuoteButton>)

  /** The click handler is attached: content and button are there and setup wired them. */
  predicate Wired(q: Quote) {
    q.contentHeight.Some? && q.button.Some? && q.button.value.listening
  }

  function Toggle(classes: set<string>, c: string): set<string> {
    if c in classes then classes - {c} else classes + {c}
  }

  /** What the widget shows agrees with the `expanded` class. */
  predicate QuoteMirrors(q: Quote, maxHeight: int) {
    && Wired(q)
    && var open := Expanded in q.classes;
    && q.button.value.ariaExpanded == Some(if open then "true" else "false")
    && (q.button.value.buttonText.Some? ==> q.button.value.buttonText.value == if open then ShowLess else ReadMoreLower)
    && q.height == Some(if open then q.contentHeight.value else maxHeight)
  }

  /** The setup of one quote in initExpandableQuotes, for a page where no handler is attached yet. */
  function InitQuote(q: Quote, maxHeight: int): (r: Quote)
    ensures q.contentHeight.None? || q.button.None? ==> r == q
    ensures q.contentHeight.Some? && q.button.Some? && q.contentHeight.value > maxHeight ==>
      && r.classes == q.classes + {Expandable} && r.height == Some(maxHeight)
      && r.button == Some(q.button.value.(listening := true)) && Wired(r)
      && r.contentHeight == q.contentHeight
    ensures q.contentHeight.Some? && q.button.Some? && q.contentHeight.value <= maxHeight ==>
      r == q.(button := Some(q.button.value.(hidden := true)))
  {
    if q.contentHeight.None? || q.button.None? then q
    else if q.contentHeight.value > maxHeight then
      q.(classes := q.classes + {Expandable}, height := Some(maxHeight),
         button := Some(q.button.value.(listening := true)))
    else q.(button := Some(q.button.value.(hidden := true)))
  }

  /** The click handler of read-more.ts; without a handler a click does nothing. */
  function ClickQuote(q: Quote, maxHeight: int): (r: Quote)
    ensures !Wired(q) ==> r == q
    ensures Wired(q) ==>
      && Wired(r) && r.contentHeight == q.contentHeight
      && (Expanded in r.classes <==> Expanded !in q.classes)
      && r.classes - {Expanded} == q.classes - {Expanded}
      && r.button.value.hidden == q.button.value.hidden
      && (r.button.value.buttonText.Some? <==> q.button.value.buttonText.Some?)
      && QuoteMirrors(r, maxHeight)
  {
    if !Wired(q) then q
    else
      var isExpanded := Expanded in q.classes;
      var animated := q.(height := Some(if isExpanded then maxHeight else q.contentHeight.value));
      var toggled := animated.(classes := Toggle(animated.classes, Expanded));
      var b := toggled.button.value.(ariaExpanded := Some(if !isExpanded then "true" else "false"));
      var labelled := match b.buttonText
        case None => b
        case Some(_) => b.(buttonText := Some(if isExpanded then ReadMoreLower else ShowLess));
      toggled.(button := Some(labelled))
  }

  /** Two clicks give back a quote whose display agreed with its state. */
  lemma ClickTwiceRestores(q: Quote, maxHeight: int)
    requires QuoteMirrors(q, maxHeight)
    ensures ClickQuote(ClickQuote(q, maxHeight), maxHeight) == q
  {
    var r := ClickQuote(ClickQuote(q, maxHeight), maxHeight);
    assert r.classes == q.classes by {
      assert r.classes - {Expanded} == q.classes - {Expanded};
      assert Expanded in r.classes <==> Expanded in q.classes;
    }
    assert r.button.value == q.button.value;
  }

  /** A quote set up as served (collapsed, aria-expanded "false", label "Read more") agrees with its state. */
  lemma InitQuoteMirrors(q: Quote, maxHeight: int)
    requires q.contentHeight.Some? && q.button.Some? && q.contentHeight.value > maxHeight
    requires Expanded !in q.classes
    requires q.button.value.ariaExpanded == Some("false")
    requires q.button.value.buttonText.Some? ==> q.button.value.buttonText.value == ReadMoreLower
    ensures QuoteMirrors(InitQuote(q, maxHeight), maxHeight)
  {
  }

  function ClickQuoteTimes(q: Quote, maxHeight: int, n: nat): Quote
    decreases n
  {
    if n == 0 then q else ClickQuote(ClickQuoteTimes(q, maxHeight, n - 1), maxHeight)
  }

  /** After n clicks the quote is expanded exactly when it started expanded xor n is odd. */
  lemma {:induction false} ClicksAlternate(q: Quote, maxHeight: int, n: nat)
    requires Wired(q)
    ensures Wired(ClickQuoteTimes(q, maxHeight, n))
    ensures Expanded in ClickQuoteTimes(q, maxHeight, n).classes <==> (Expanded in q.classes) != (n % 2 == 1)
    decreases n
  {
    if n > 0 {
      ClicksAlternate(q, maxHeight, n - 1);
    }
  }

  /** The outcome of a handler in the JavaScript copy: the state it leaves and whether it threw. */
  datatype JsOutcome = JsOutcome(state: Quote, threw: bool)

  /**
   * The click handler of read-more.js: the same steps, but the label is
   * written through a `.button-text` lookup that is not checked for null,
   * so without that element the handler throws after toggling and
   * setting aria-expanded (the boolean is stringified by setAttribute).
   */
  function ClickQuoteJs(q: Quote, maxHeight: int): (r: JsOutcome)
    ensures r.threw ==> Wired(q) && q.button.value.buttonText.None?
  {
    if !Wired(q) then JsOutcome(q, false)
    else
      var isExpanded := Expanded in q.classes;
      var animated := q.(height := Some(if isExpanded then maxHeight else q.contentHeight.value));
      var toggled := animated.(classes := Toggle(animated.classes, Expanded));
      var b := toggled.button.value.(ariaExpanded := Some(BoolString(!isExpanded)));
      match b.buttonText
      case None => JsOutcome(toggled.(button := Some(b)), true)
      case Some(_) =>
        JsOutcome(toggled.(button := Some(b.(buttonText := Some(if isExpanded then ReadMoreLower else ShowLess)))), false)
  }

  function BoolString(v: bool): string {
    if v then "true" else "false"
  }

  /**
   * The JavaScript click leaves the same state as the TypeScript one, and it
   * throws exactly when a wired button has no `.button-text`.
   */
  lemma JsClickMatchesTs(q: Quote, maxHeight: int)
    ensures ClickQuoteJs(q, maxHeight).state == ClickQuote(q, maxHeight)
    ensures ClickQuoteJs(q, maxHeight).threw <==> Wired(q) && q.button.value.buttonText.None?
  {
  }

  // ---------------------------------------------------------------- read-more buttons

  /** An element a read-more button points at: its line height, scrollHeight, inline max-height and classes. */
  datatype Content = Content(lineHeight: int, scrollHeight: int, maxHeight: Option<int>, overflowHidden: bool, classes: set<string>)

  /**
   * A `[data-read-more]` button: the id it names, its text, and once its
   * listener is attached the three-line height it captured.
   */
  datatype ReadMoreButton = ReadMoreButton(target: string, text: string, collapsed: Option<int>)

  /** Elements by id, and the read-more buttons in document order. */
  datatype Panel = Panel(contents: map<string, Content>, buttons: seq<ReadMoreButton>)

  /** document.getElementById: no element has the empty id. */
  function ElementById(contents: map<string, Content>, id: string): (r: Option<Content>)
    ensures r.Some? <==> id != "" && id in contents
    ensures r.Some? ==> r.value == contents[id]
  {
    if id != "" && id in contents then Some(contents[id]) else None
  }

  /** Collapse the content to three lines and attach the listener with that height. */
  function Collapse(p: Panel, i: int, c: Content): (r: Panel)
    requires 0 <= i < |p.buttons|
  {
    var h := MaxLines * c.lineHeight;
    var t := p.buttons[i].target;
    var styled := c.(maxHeight := Some(h), overflowHidden := true, classes := c.classes + Transitions);
    Panel(p.contents[t := styled], p.buttons[i := p.buttons[i].(collapsed := Some(h))])
  }

  /** One iteration of initReadMore in read-more.ts: skip an empty id or a missing element. */
  function InitButton(p: Panel, i: int): (r: Panel)
    requires 0 <= i < |p.buttons|
    ensures |r.buttons| == |p.buttons| && r.contents.Keys == p.contents.Keys
    ensures forall j :: 0 <= j < |p.buttons| && j != i ==> r.buttons[j] == p.buttons[j]
    ensures var t := p.buttons[i].target;
      && (t == "" || t !in p.contents ==> r == p)
      && (t != "" && t in p.contents ==>
            && r.buttons[i].collapsed == Some(MaxLines * p.contents[t].lineHeight)
            && r.contents[t].maxHeight == r.buttons[i].collapsed
            && r.contents[t] == p.contents[t].(maxHeight := r.contents[t].maxHeight, overflowHidden := true, classes := r.contents[t].classes)
            && r.contents[t].overflowHidden
            && r.contents[t].classes == p.contents[t].classes + Transitions
            && r.buttons[i].target == t && r.buttons[i].text == p.buttons[i].text
            && forall id :: id in p.contents && id != t ==> r.contents[id] == p.contents[id])
  {
    var contentId := p.buttons[i].target;
    if contentId == "" then p
    else
      match ElementById(p.contents, contentId)
      case None => p
      case Some(c) => Collapse(p, i, c)
  }

  /** The same iteration in read-more.js, which only checks the element lookup. */
  function InitButtonJs(p: Panel, i: int): (r: Panel)
    requires 0 <= i < |p.buttons|
  {
    var content := ElementById(p.contents, p.buttons[i].target);
    if content.Some? then Collapse(p, i, content.value) else p
  }

  /** Skipping the empty id explicitly changes nothing: the lookup already fails for it. */
  lemma InitButtonJsMatchesTs(p: Panel, i: int)
    requires 0 <= i < |p.buttons|
    ensures InitButtonJs(p, i) == InitButton(p, i)
  {
  }

  /** initReadMore over the first n buttons. */
  function InitButtons(p: Panel, n: nat): (r: Panel)
    requires n <= |p.buttons|
    ensures |r.buttons| == |p.buttons| && r.contents.Keys == p.contents.Keys
    ensures forall j :: n <= j < |p.buttons| ==> r.buttons[j] == p.buttons[j]
    decreases n
  {
    if n == 0 then p else InitButton(InitButtons(p, n - 1), n - 1)
  }

  /** initReadMore keeps every element's heights and every button's target, and skips what it cannot set up. */
  lemma InitButtonsKeeps(p: Panel, n: nat)
    requires n <= |p.buttons|
    ensures forall id :: id in p.contents ==>
      && InitButtons(p, n).contents[id].lineHeight == p.contents[id].lineHeight
      && InitButtons(p, n).contents[id].scrollHeight == p.contents[id].scrollHeight
    ensures forall j :: 0 <= j < n ==> InitButtons(p, n).buttons[j].target == p.buttons[j].target
    ensures forall j :: 0 <= j < n && (p.buttons[j].target == "" || p.buttons[j].target !in p.contents) ==>
      InitButtons(p, n).buttons[j] == p.buttons[j]
    ensures forall id :: id in p.contents && (forall j :: 0 <= j < n ==> p.buttons[j].target != id) ==>
      InitButtons(p, n).contents[id] == p.contents[id]
  {
    forall id | id in p.contents {
      LineHeightKept(p, n, id);
    }
    forall j | 0 <= j < n {
      ButtonKept(p, n, j);
    }
    forall id | id in p.contents && (forall j :: 0 <= j < n ==> p.buttons[j].target != id) {
      UntargetedKept(p, n, id);
    }
  }

  /** Setup never changes an element's line height or full height. */
  lemma {:induction false} LineHeightKept(p: Panel, n: nat, t: string)
    requires n <= |p.buttons| && t in p.contents
    ensures InitButtons(p, n).contents[t].lineHeight == p.contents[t].lineHeight
    ensures InitButtons(p, n).contents[t].scrollHeight == p.contents[t].scrollHeight
    ensures InitButtons(p, n).contents[t].classes + Transitions == p.contents[t].classes + Transitions
  {
    if n > 0 {
      LineHeightKept(p, n - 1, t);
    }
  }

  /** Setup keeps a button's target, and leaves a button it skips as it was. */
  lemma {:induction false} ButtonKept(p: Panel, n: nat, j: nat)
    requires j < n <= |p.buttons|
    ensures InitButtons(p, n).buttons[j].target == p.buttons[j].target
    ensures p.buttons[j].target == "" || p.buttons[j].target !in p.contents ==> InitButtons(p, n).buttons[j] == p.buttons[j]
  {
    assert InitButtons(p, n) == InitButton(InitButtons(p, n - 1), n - 1);
    if j < n - 1 {
      ButtonKept(p, n - 1, j);
    }
  }

  /** An element that no processed button names is left as it was. */
  lemma {:induction false} UntargetedKept(p: Panel, n: nat, id: string)
    requires n <= |p.buttons| && id in p.contents
    requires forall j :: 0 <= j < n ==> p.buttons[j].target != id
    ensures InitButtons(p, n).contents[id] == p.contents[id]
  {
    if n > 0 {
      UntargetedKept(p, n - 1, id);
    }
  }

  /** One button set up by an earlier iteration stays set up through iteration n - 1. */
  lemma {:induction false} SetUpAt(p: Panel, n: nat, j: nat)
    requires j < n <= |p.buttons|
    requires p.buttons[j].target != "" && p.buttons[j].target in p.contents
    ensures SetUp(InitButtons(p, n), j, p.buttons[j].(collapsed := Some(MaxLines * p.contents[p.buttons[j].target].lineHeight)),
                  p.contents[p.buttons[j].target].classes)
  {
    var t := p.buttons[j].target;
    var q := InitButtons(p, n - 1);
    assert InitButtons(p, n) == InitButton(q, n - 1);
    LineHeightKept(p, n - 1, t);
    if j == n - 1 {
      InitButtonAt(q, n - 1, t);
    } else {
      SetUpAt(p, n - 1, j);
      StaysSetUp(q, n - 1, j, p.buttons[j].(collapsed := Some(MaxLines * p.contents[t].lineHeight)), p.contents[t].classes);
    }
  }

  /**
   * Button j is b, and the content it names is clipped to the height b
   * captured, with the transition classes added to `classes`.
   */
  predicate SetUp(r: Panel, j: nat, b: ReadMoreButton, classes: set<string>) {
    && j < |r.buttons| && r.buttons[j] == b && b.target in r.contents
    && r.contents[b.target].maxHeight == b.collapsed
    && r.contents[b.target].overflowHidden
    && r.contents[b.target].classes == classes + Transitions
  }

  /** An iteration for another button keeps button j set up at the same height. */
  lemma StaysSetUp(q: Panel, i: nat, j: nat, b: ReadMoreButton, classes: set<string>)
    requires i < |q.buttons| && i != j && SetUp(q, j, b, classes)
    requires b.collapsed == Some(MaxLines * q.contents[b.target].lineHeight)
    ensures SetUp(InitButton(q, i), j, b, classes)
  {
  }

  /** What one iteration does to its own button: the element with a non-empty id t is clipped to three lines. */
  lemma InitButtonAt(q: Panel, i: nat, t: string)
    requires i < |q.buttons| && t in q.contents && t != "" && q.buttons[i].target == t
    ensures SetUp(InitButton(q, i), i, q.buttons[i].(collapsed := Some(MaxLines * q.contents[t].lineHeight)), q.contents[t].classes)
  {
  }

  /**
   * After initReadMore over the first n buttons, each of them whose target
   * exists listens with the three-line height of its content, and that
   * content is clipped to it with overflow hidden and the transition classes.
   */
  lemma InitButtonsSetsUp(p: Panel, n: nat)
    requires n <= |p.buttons|
    ensures forall j :: 0 <= j < n && p.buttons[j].target != "" && p.buttons[j].target in p.contents ==>
      && Listening(InitButtons(p, n), j)
      && InitButtons(p, n).buttons[j] == p.buttons[j].(collapsed := Some(MaxLines * p.contents[p.buttons[j].target].lineHeight))
      && InitButtons(p, n).contents[p.buttons[j].target].maxHeight == InitButtons(p, n).buttons[j].collapsed
      && InitButtons(p, n).contents[p.buttons[j].target].overflowHidden
      && InitButtons(p, n).contents[p.buttons[j].target].classes == p.contents[p.buttons[j].target].classes + Transitions
  {
    forall j | 0 <= j < n && p.buttons[j].target != "" && p.buttons[j].target in p.contents {
      SetUpAt(p, n, j);
    }
  }

  /** A button whose listener is attached and whose element exists. */
  predicate Listening(p: Panel, i: int) {
    0 <= i < |p.buttons| && p.buttons[i].collapsed.Some? && p.buttons[i].target in p.contents
  }

  /** The click listener of initReadMore: expand from the three-line height, else collapse back to it. */
  function ClickReadMore(p: Panel, i: int): (r: Panel)
    requires 0 <= i < |p.buttons|
    ensures !Listening(p, i) ==> r == p
    ensures Listening(p, i) ==>
      var t, h := p.buttons[i].target, p.buttons[i].collapsed;
      && |r.buttons| == |p.buttons| && r.contents.Keys == p.contents.Keys
      && (forall j :: 0 <= j < |p.buttons| && j != i ==> r.buttons[j] == p.buttons[j])
      && (forall id :: id in p.contents && id != t ==> r.contents[id] == p.contents[id])
      && r.buttons[i] == p.buttons[i].(text := r.buttons[i].text)
      && r.contents[t] == p.contents[t].(maxHeight := r.contents[t].maxHeight)
      && (p.contents[t].maxHeight == h ==>
            r.contents[t].maxHeight == Some(p.contents[t].scrollHeight) && r.buttons[i].text == ReadLess)
      && (p.contents[t].maxHeight != h ==> r.contents[t].maxHeight == h && r.buttons[i].text == ReadMoreUpper)
  {
    var b := p.buttons[i];
    if b.collapsed.None? || b.target !in p.contents then p
    else
      var c := p.contents[b.target];
      if c.maxHeight == b.collapsed then
        Panel(p.contents[b.target := c.(maxHeight := Some(c.scrollHeight))], p.buttons[i := b.(text := ReadLess)])
      else
        Panel(p.contents[b.target := c.(maxHeight := b.collapsed)], p.buttons[i := b.(text := ReadMoreUpper)])
  }

  /**
   * Right after setup a click expands; when the full height differs from
   * three lines the next click collapses again, so clicks alternate.
   */
  lemma {:induction false} ReadMoreAlternates(p: Panel, i: int)
    requires 0 <= i < |p.buttons|
    requires p.buttons[i].target != "" && p.buttons[i].target in p.contents
    requires p.contents[p.buttons[i].target].scrollHeight != MaxLines * p.contents[p.buttons[i].target].lineHeight
    ensures var t := p.buttons[i].target;
      var once := ClickReadMore(InitButton(p, i), i);
      var twice := ClickReadMore(once, i);
      && once.buttons[i].text == ReadLess && once.contents[t].maxHeight == Some(p.contents[t].scrollHeight)
      && twice.buttons[i].text == ReadMoreUpper && twice.contents[t].maxHeight == InitButton(p, i).contents[t].maxHeight
      && twice == InitButton(p, i).(buttons := InitButton(p, i).buttons[i := twice.buttons[i]])
  {
    var t := p.buttons[i].target;
    var setUp := InitButton(p, i);
    assert Listening(setUp, i);
    var once := ClickReadMore(setUp, i);
    assert Listening(once, i);
    var twice := ClickReadMore(once, i);
    assert twice.contents == setUp.contents by {
      assert twice.contents[t] == setUp.contents[t];
      assert forall id :: id in setUp.contents ==> twice.contents[id] == setUp.contents[id];
    }
    assert twice.buttons == setUp.buttons[i := twice.buttons[i]];
  }

  /** When the full height equals three lines the button never goes back to "Read More". */
  lemma ShortContentStaysReadLess(p: Panel, i: int)
    requires Listening(p, i)
    requires p.contents[p.buttons[i].target].maxHeight == p.buttons[i].collapsed
    requires p.buttons[i].collapsed == Some(p.contents[p.buttons[i].target].scrollHeight)
    ensures ClickReadMore(ClickReadMore(p, i), i).buttons[i].text == ReadLess
  {
  }

  // ---------------------------------------------------------------- the page state

  class ExpandableQuotes {
    var quotes: seq<Quote>
    const maxHeight: int

    constructor (served: seq<Quote>, lineMax: int)
      ensures quotes == served && maxHeight == lineMax
    {
      quotes, maxHeight := served, lineMax;
    }

    /** initExpandableQuotes: every quote set up on its own. */
    method InitExpandableQuotes()
      modifies this
      ensures |quotes| == |old(quotes)|
      ensures forall k :: 0 <= k < |quotes| ==> quotes[k] == InitQuote(old(quotes)[k], maxHeight)
    {
      ghost var before := quotes;
      var k := 0;
      while k < |quotes|
        invariant 0 <= k <= |quotes| == |before|
        invariant forall j :: 0 <= j < k ==> quotes[j] == InitQuote(before[j], maxHeight)
        invariant forall j :: k <= j < |quotes| ==> quotes[j] == before[j]
      {
        quotes := quotes[k := InitQuote(quotes[k], maxHeight)];
        k := k + 1;
      }
    }

    method Click(k: nat)
      requires k < |quotes|
      modifies this
      ensures quotes == old(quotes)[k := ClickQuote(old(quotes)[k], maxHeight)]
    {
      var q := quotes[k];
      if !Wired(q) {
        return;
      }
      var isExpanded := Expanded in q.classes;
      q := q.(height := Some(if isExpanded then maxHeight else q.contentHeight.value));
      q := q.(classes := Toggle(q.classes, Expanded));
      var b := q.button.value.(ariaExpanded := Some(if !isExpanded then "true" else "false"));
      if b.buttonText.Some? {
        b := b.(buttonText := Some(if isExpanded then ReadMoreLower else ShowLess));
      }
      quotes := quotes[k := q.(button := Some(b))];
    }
  }

  class ReadMorePanel {
    var contents: map<string, Content>
    var buttons: seq<ReadMoreButton>

    ghost function View(): Panel
      reads this
    {
      Panel(contents, buttons)
    }

    constructor (elements: map<string, Content>, served: seq<ReadMoreButton>)
      ensures View() == Panel(elements, served)
    {
      contents, buttons := elements, served;
    }

    /** initReadMore: set up each button in document order. */
    method InitReadMore()
      modifies this
      ensures View() == InitButtons(old(View()), |old(buttons)|)
    {
      ghost var before := View();
      var k := 0;
      while k < |buttons|
        invariant 0 <= k <= |buttons| == |before.buttons|
        invariant View() == InitButtons(before, k)
      {
        var contentId := buttons[k].target;
        if contentId != "" && contentId in contents {
          var c := contents[contentId];
          var h := MaxLines * c.lineHeight;
          contents := contents[contentId := c.(maxHeight := Some(h), overflowHidden := true, classes := c.classes + Transitions)];
          buttons := buttons[k := buttons[k].(collapsed := Some(h))];
        }
        k := k + 1;
      }
    }

    method Click(i: nat)
      requires i < |buttons|
      modifies this
      ensures View() == ClickReadMore(old(View()), i)
    {
      var b := buttons[i];
      if b.collapsed.None? || b.target !in contents {
        return;
      }
      var c := contents[b.target];
      if c.maxHeight == b.collapsed {
        contents := contents[b.target := c.(maxHeight := Some(c.scrollHeight))];
        buttons := buttons[i := b.(text := ReadLess)];
      } else {
        contents := contents[b.target := c.(maxHeight := b.collapsed)];
        buttons := buttons[i := b.(text := ReadMoreUpper)];
      }
    }
  }
}
