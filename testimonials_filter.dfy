/**
 * The testimonials manager: a filter on role and minimum rating, a sort on
 * date or rating in either order, the set of active-filter keys behind the
 * removable chips, and a page counter that shows six cards at a time.
 *
 * Cards are identified by their position in document order. Their
 * `data-rating` is taken already parsed (a missing attribute reads as 0) and
 * their `data-date` as an integer timestamp; unparseable values (NaN) are
 * not modelled.
 */
module Testimonials {
  import opened Wrappers

  const ItemsPerPage: nat := 6

  /** The data attributes of a `.testimonial-card`. */
  datatype Card = Card(role: Option<string>, rating: int, date: int)

  /**
   * filterState. sortBy and sortOrder hold the two halves of the sort
   * select's value as they come, since the script stores them unchecked.
   */
  datatype FilterState = FilterState(
    role: Option<string>,
    rating: Option<int>,
    sortBy: string,
    sortOrder: Option<string>)

  /** The state the constructor sets up: newest first, no criterion. */
  const InitialFilter: FilterState := FilterState(None, None, "date", Some("desc"))

  // ---------------------------------------------------------------- select handlers

  /** The role select: 'all' clears the criterion, anything else becomes it. */
  function RoleChanged(fs: FilterState, value: string): (r: FilterState)
    ensures r.role.None? <==> value == "all"
    ensures r.role.Some? ==> r.role.value == value
    ensures r.rating == fs.rating && r.sortBy == fs.sortBy && r.sortOrder == fs.sortOrder
  {
    fs.(role := if value == "all" then None else Some(value))
  }

  /** The rating select, with parseInt's result (None for NaN) as input. */
  function RatingChanged(fs: FilterState, parsed: Option<int>): (r: FilterState)
    ensures r.rating == parsed
    ensures r.role == fs.role && r.sortBy == fs.sortBy && r.sortOrder == fs.sortOrder
  {
    fs.(rating := parsed)
  }

  /** The text before the first '-', or all of it. */
  function BeforeDash(s: string): (r: string)
    ensures |r| <= |s| && r == s[..|r|]
    ensures '-' !in r
  {
    if s == [] || s[0] == '-' then [] else [s[0]] + BeforeDash(s[1..])
  }

  /** The text after the first '-', if there is one. */
  function AfterDash(s: string): (r: Option<string>)
    ensures r.None? <==> '-' !in s
  {
    if s == [] then None else if s[0] == '-' then Some(s[1..]) else AfterDash(s[1..])
  }

  /** `value.split('-')` destructured into its first two pieces. */
  function SortParts(value: string): (string, Option<string>) {
    (BeforeDash(value), match AfterDash(value) case None => None case Some(rest) => Some(BeforeDash(rest)))
  }

  /** The sort select. */
  function SortChanged(fs: FilterState, value: string): (r: FilterState)
    ensures r.sortBy == BeforeDash(value) && r.sortBy == value[..|r.sortBy|] && '-' !in r.sortBy
    ensures r.sortOrder.Some? <==> '-' in value
    ensures r.sortOrder.Some? ==> '-' !in r.sortOrder.value
    ensures r.role == fs.role && r.rating == fs.rating
  {
    fs.(sortBy := SortParts(value).0, sortOrder := SortParts(value).1)
  }

  lemma {:induction false} SplitJoined(head: string, rest: string)
    requires '-' !in head
    ensures BeforeDash(head + "-" + rest) == head
    ensures AfterDash(head + "-" + rest) == Some(rest)
  {
    if head != [] {
      assert (head + "-" + rest)[1..] == head[1..] + "-" + rest;
      SplitJoined(head[1..], rest);
    } else {
      assert (head + "-" + rest)[1..] == rest;
    }
  }

  /** A sort value 'by-order' sets both fields from its halves. */
  lemma SortValueRoundTrip(fs: FilterState, head: string, order: string)
    requires '-' !in head && '-' !in order
    ensures SortChanged(fs, head + "-" + order) == fs.(sortBy := head, sortOrder := Some(order))
  {
    SplitJoined(head, order);
    SplitJoined(order, "");
    assert order + "-" + "" == order + "-";
    NoDashBeforeDash(order);
  }

  lemma {:induction false} NoDashBeforeDash(s: string)
    requires '-' !in s
    ensures BeforeDash(s) == s
  {
    if s != [] {
      NoDashBeforeDash(s[1..]);
    }
  }

  // ---------------------------------------------------------------- filter and sort

  /** The filter predicate of applyFilters. An empty role and a rating of 0 are no criterion. */
  function Matches(card: Card, fs: FilterState): (r: bool)
    ensures fs.role.None? && fs.rating.None? ==> r
    ensures r && fs.role.Some? && fs.role.value != "" ==> card.role == fs.role
    ensures r && fs.rating.Some? && fs.rating.value != 0 ==> card.rating >= fs.rating.value
    ensures !r ==> || (fs.role.Some? && fs.role.value != "" && card.role != fs.role)
                   || (fs.rating.Some? && fs.rating.value != 0 && card.rating < fs.rating.value)
  {
    && (fs.role.None? || fs.role.value == "" || card.role == fs.role)
    && (fs.rating.None? || fs.rating.value == 0 || card.rating >= fs.rating.value)
  }

  /** The indices of the first n cards that pass the filter, in document order. */
  function Filtered(cards: seq<Card>, fs: FilterState, n: nat): (r: seq<nat>)
    requires n <= |cards|
    ensures forall k :: 0 <= k < |r| ==> r[k] < n && Matches(cards[r[k]], fs)
    ensures forall a, b :: 0 <= a < b < |r| ==> r[a] < r[b]
    ensures forall idx :: 0 <= idx < n && Matches(cards[idx], fs) ==> idx in r
    decreases n
  {
    if n == 0 then []
    else
      var r := Filtered(cards, fs, n - 1);
      if Matches(cards[n - 1], fs) then r + [n - 1] else r
  }

  /** The comparator's key: the timestamp when sorting by date, the rating otherwise. */
  function Key(card: Card, sortBy: string): int {
    if sortBy == "date" then card.date else card.rating
  }

  /** The comparator sorts ascending only for 'asc'; any other order sorts descending. */
  predicate Ascending(fs: FilterState) {
    fs.sortOrder == Some("asc")
  }

  /** The key the comparator orders by, turned so that the order is always ascending. */
  function Rank(cards: seq<Card>, fs: FilterState, idx: nat): int
    requires idx < |cards|
  {
    if Ascending(fs) then Key(cards[idx], fs.sortBy) else -Key(cards[idx], fs.sortBy)
  }

  predicate InRange(cards: seq<Card>, s: seq<nat>) {
    forall k :: 0 <= k < |s| ==> s[k] < |cards|
  }

  predicate Sorted(cards: seq<Card>, fs: FilterState, s: seq<nat>)
    requires InRange(cards, s)
  {
    forall a, b :: 0 <= a < b < |s| ==> Rank(cards, fs, s[a]) <= Rank(cards, fs, s[b])
  }

  /** Insert x after every index whose key does not come after its own (a stable insertion). */
  function Insert(cards: seq<Card>, fs: FilterState, x: nat, s: seq<nat>): (r: seq<nat>)
    requires x < |cards| && InRange(cards, s) && Sorted(cards, fs, s)
    ensures InRange(cards, r) && Sorted(cards, fs, r)
    ensures multiset(r) == multiset(s) + multiset{x}
    decreases |s|
  {
    if s == [] then [x]
    else if Rank(cards, fs, x) < Rank(cards, fs, s[0]) then [x] + s
    else
      var t := Insert(cards, fs, x, s[1..]);
      HeadStaysFirst(cards, fs, s, x, t);
      [s[0]] + t
  }

  /** The head of a sorted list ranks no later than anything the insertion into its tail yields. */
  lemma HeadStaysFirst(cards: seq<Card>, fs: FilterState, s: seq<nat>, x: nat, t: seq<nat>)
    requires s != [] && x < |cards| && InRange(cards, s) && Sorted(cards, fs, s) && InRange(cards, t)
    requires multiset(t) == multiset(s[1..]) + multiset{x}
    requires Rank(cards, fs, s[0]) <= Rank(cards, fs, x)
    ensures forall k :: 0 <= k < |t| ==> Rank(cards, fs, s[0]) <= Rank(cards, fs, t[k])
    ensures multiset(s) == multiset{s[0]} + multiset(s[1..])
  {
    assert s == [s[0]] + s[1..];
    forall k | 0 <= k < |t|
      ensures Rank(cards, fs, s[0]) <= Rank(cards, fs, t[k])
    {
      assert t[k] in multiset(t);
      if t[k] != x {
        assert t[k] in multiset(s[1..]);
        var j :| 0 <= j < |s[1..]| && s[1..][j] == t[k];
        assert s[j + 1] == t[k];
      }
    }
  }

  /** The sort of applyFilters: a stable sort of the filtered indices by the comparator. */
  function SortCards(cards: seq<Card>, fs: FilterState, s: seq<nat>): (r: seq<nat>)
    requires InRange(cards, s)
    ensures InRange(cards, r) && Sorted(cards, fs, r)
    ensures multiset(r) == multiset(s)
    decreases |s|
  {
    if s == [] then []
    else
      var init := s[..|s| - 1];
      assert s == init + [s[|s| - 1]];
      Insert(cards, fs, s[|s| - 1], SortCards(cards, fs, init))
  }

  /** The filtered cards in the comparator's order. */
  function Ordered(cards: seq<Card>, fs: FilterState): (r: seq<nat>)
    ensures InRange(cards, r)
  {
    SortCards(cards, fs, Filtered(cards, fs, |cards|))
  }

  /**
   * The sorted list holds exactly the cards that pass the filter, each once,
   * and orders them by the chosen key: non-decreasing for 'asc', non-increasing otherwise.
   */
  lemma OrderedIsSortedFilter(cards: seq<Card>, fs: FilterState)
    ensures var r := Ordered(cards, fs);
      && multiset(r) == multiset(Filtered(cards, fs, |cards|))
      && (forall idx :: 0 <= idx < |cards| ==> (idx in r <==> Matches(cards[idx], fs)))
      && (Ascending(fs) ==> forall a, b :: 0 <= a < b < |r| ==> Key(cards[r[a]], fs.sortBy) <= Key(cards[r[b]], fs.sortBy))
      && (!Ascending(fs) ==> forall a, b :: 0 <= a < b < |r| ==> Key(cards[r[a]], fs.sortBy) >= Key(cards[r[b]], fs.sortBy))
  {
    var f := Filtered(cards, fs, |cards|);
    var r := Ordered(cards, fs);
    forall idx | 0 <= idx < |cards| ensures idx in r <==> Matches(cards[idx], fs) {
      assert idx in r <==> idx in multiset(r);
      assert idx in f <==> idx in multiset(f);
    }
    forall a, b | 0 <= a < b < |r|
      ensures Ascending(fs) ==> Key(cards[r[a]], fs.sortBy) <= Key(cards[r[b]], fs.sortBy)
      ensures !Ascending(fs) ==> Key(cards[r[a]], fs.sortBy) >= Key(cards[r[b]], fs.sortBy)
    {
      assert Rank(cards, fs, r[a]) <= Rank(cards, fs, r[b]);
    }
  }

  /** What the completion step of applyFilters leaves displayed: the cards in the sorted list. */
  function Visibility(n: nat, ordered: seq<nat>): (r: seq<bool>)
    ensures |r| == n
    ensures forall k :: 0 <= k < n ==> (r[k] <==> k in ordered)
  {
    seq(n, k requires 0 <= k < n => k in ordered)
  }

  /** After applyFilters a card is displayed iff it passes the filter. */
  lemma DisplayedIffMatches(cards: seq<Card>, fs: FilterState)
    ensures forall k :: 0 <= k < |cards| ==> (Visibility(|cards|, Ordered(cards, fs))[k] <==> Matches(cards[k], fs))
  {
    OrderedIsSortedFilter(cards, fs);
  }

  // ---------------------------------------------------------------- active filters

  /** updateActiveFilters: only the key type-value changes; 'all' and '' remove it, other values add it. */
  function UpdateActive(active: set<string>, kind: string, value: string): (r: set<string>)
    ensures (kind + "-" + value in r) <==> value != "all" && value != ""
    ensures forall key :: key != kind + "-" + value ==> (key in r <==> key in active)
  {
    if value == "all" || value == "" then active - {kind + "-" + value} else active + {kind + "-" + value}
  }

  function DigitChar(d: nat): char
    requires d < 10
  {
    "0123456789"[d]
  }

  /** Number.prototype.toString for an integer. */
  function IntToString(i: int): string
    decreases if i < 0 then -i + 1 else i
  {
    if i < 0 then "-" + IntToString(-i)
    else if i < 10 then [DigitChar(i)]
    else IntToString(i / 10) + [DigitChar(i % 10)]
  }

  /** The key the rating select passes on: parseInt's result printed back, NaN when it failed. */
  function RatingKeyValue(parsed: Option<int>): string {
    match parsed
    case None => "NaN"
    case Some(n) => IntToString(n)
  }

  /**
   * Choosing a rating that does not parse (the 'all' option) clears the
   * rating criterion but records the active key 'rating-NaN'.
   */
  lemma ClearingRatingAddsNaN(fs: FilterState, active: set<string>)
    ensures RatingChanged(fs, None).rating.None?
    ensures "rating-NaN" in UpdateActive(active, "rating", RatingKeyValue(None))
  {
    assert "rating" + "-" + RatingKeyValue(None) == "rating-NaN";
  }

  /**
   * Choosing 'all' in the role select removes only the key 'role-all', so the
   * key of a role chosen before stays active.
   */
  lemma RoleAllKeepsEarlierRole(active: set<string>, role: string)
    requires role != "all" && role != ""
    ensures "role-" + role in UpdateActive(UpdateActive(active, "role", role), "role", "all")
  {
    assert "role" + "-" + role == "role-" + role;
    assert ("role" + "-" + role)[5..] == role;
    assert ("role" + "-" + "all")[5..] == "all";
  }

  /** A chip's close button deletes its own key and leaves the filter criteria alone. */
  function RemoveChip(active: set<string>, key: string): (r: set<string>)
    ensures key !in r && forall other :: other != key ==> (other in r <==> other in active)
  {
    active - {key}
  }

  // ---------------------------------------------------------------- pagination

  /** Math.ceil(n / 6). */
  function TotalPages(n: nat): (r: nat)
    ensures (r - 1) * ItemsPerPage < n <= r * ItemsPerPage || (n == 0 && r == 0)
  {
    (n + ItemsPerPage - 1) / ItemsPerPage
  }

  function PrevPage(page: nat): (r: nat)
    ensures page > 1 ==> r == page - 1
    ensures page <= 1 ==> r == page
  {
    if page > 1 then page - 1 else page
  }

  function NextPage(page: nat, totalPages: nat): (r: nat)
    ensures page < totalPages ==> r == page + 1
    ensures page >= totalPages ==> r == page
  {
    if page < totalPages then page + 1 else page
  }

  /** The Prev and Next handlers keep the page in [1, totalPages]. */
  lemma PagingStaysInRange(page: nat, totalPages: nat)
    requires 1 <= page <= totalPages
    ensures 1 <= PrevPage(page) <= totalPages && 1 <= NextPage(page, totalPages) <= totalPages
    ensures page == 1 ==> PrevPage(page) == page
    ensures page == totalPages ==> NextPage(page, totalPages) == page
  {
  }

  /** The cards updatePagination shows on a page: indices [(page-1)*6, page*6) of the whole list. */
  predicate OnPage(idx: nat, page: nat) {
    (page - 1) * ItemsPerPage <= idx < (page - 1) * ItemsPerPage + ItemsPerPage
  }

  function PageVisibility(n: nat, page: nat): (r: seq<bool>)
    ensures |r| == n
    ensures forall k :: 0 <= k < n ==> (r[k] <==> OnPage(k, page))
  {
    seq(n, k requires 0 <= k < n => OnPage(k, page))
  }

  /** Paging reaches every card: card idx is on page idx/6 + 1, which is a valid page, and on no other. */
  lemma EveryCardOnOnePage(n: nat, idx: nat, page: nat)
    requires idx < n && 1 <= page
    ensures 1 <= idx / ItemsPerPage + 1 <= TotalPages(n)
    ensures OnPage(idx, page) <==> page == idx / ItemsPerPage + 1
  {
    var q := idx / ItemsPerPage;
    assert q * ItemsPerPage <= idx < q * ItemsPerPage + ItemsPerPage;
    if OnPage(idx, page) {
      PageOfIndex(idx, page - 1);
    }
  }

  lemma PageOfIndex(idx: nat, p: nat)
    requires p * ItemsPerPage <= idx < p * ItemsPerPage + ItemsPerPage
    ensures idx / ItemsPerPage == p
  {
  }

  // ---------------------------------------------------------------- the manager object

  class TestimonialsManager {
    const cards: seq<Card>
    var filterState: FilterState
    var activeFilters: set<string>
    var displayed: seq<bool>       // card.style.display is '' (true) or 'none' (false)
    const totalPages: nat
    const paginated: bool          // the Prev/Next controls were created
    var currentPage: nat
    var prevDisabled: bool
    var nextDisabled: bool

    ghost predicate Valid()
      reads this
    {
      && |displayed| == |cards|
      && totalPages == TotalPages(|cards|)
      && (paginated ==> totalPages > 1 && 1 <= currentPage <= totalPages)
    }

    /** The constructor with initializePagination; controls need totalPages > 1 and a container. */
    constructor (all: seq<Card>, hasPaginationContainer: bool)
      ensures Valid()
      ensures cards == all && filterState == InitialFilter && activeFilters == {}
      ensures paginated <==> TotalPages(|all|) > 1 && hasPaginationContainer
      ensures paginated ==> currentPage == 1 && displayed == PageVisibility(|all|, 1) && prevDisabled && !nextDisabled
      ensures !paginated ==> displayed == seq(|all|, _ => true)
    {
      cards := all;
      filterState := InitialFilter;
      activeFilters := {};
      totalPages := TotalPages(|all|);
      paginated := TotalPages(|all|) > 1 && hasPaginationContainer;
      currentPage := 1;
      prevDisabled, nextDisabled := false, false;
      displayed := seq(|all|, _ => true);
      new;
      if paginated {
        UpdatePagination();
      }
    }

    /** updatePagination: show the current page's slice of the whole (unfiltered) list. */
    method UpdatePagination()
      requires Valid() && paginated
      modifies this`displayed, this`prevDisabled, this`nextDisabled
      ensures Valid()
      ensures displayed == PageVisibility(|cards|, currentPage)
      ensures prevDisabled <==> currentPage == 1
      ensures nextDisabled <==> currentPage == totalPages
    {
      var startIdx := (currentPage - 1) * ItemsPerPage;
      var endIdx := startIdx + ItemsPerPage;
      for idx := 0 to |cards|
        invariant |displayed| == |cards|
        invariant forall k :: 0 <= k < idx ==> (displayed[k] <==> OnPage(k, currentPage))
      {
        displayed := displayed[idx := startIdx <= idx < endIdx];
      }
      prevDisabled := currentPage == 1;
      nextDisabled := currentPage == totalPages;
    }

    method ClickPrev()
      requires Valid() && paginated
      modifies this`currentPage, this`displayed, this`prevDisabled, this`nextDisabled
      ensures Valid()
      ensures currentPage == PrevPage(old(currentPage))
      ensures old(currentPage) > 1 ==> displayed == PageVisibility(|cards|, currentPage)
      ensures old(currentPage) > 1 ==> (prevDisabled <==> currentPage == 1) && (nextDisabled <==> currentPage == totalPages)
      ensures old(currentPage) == 1 ==> displayed == old(displayed)
      ensures old(currentPage) == 1 ==> prevDisabled == old(prevDisabled) && nextDisabled == old(nextDisabled)
    {
      if currentPage > 1 {
        currentPage := currentPage - 1;
        UpdatePagination();
      }
    }

    method ClickNext()
      requires Valid() && paginated
      modifies this`currentPage, this`displayed, this`prevDisabled, this`nextDisabled
      ensures Valid()
      ensures currentPage == NextPage(old(currentPage), totalPages)
      ensures old(currentPage) < totalPages ==> displayed == PageVisibility(|cards|, currentPage)
      ensures old(currentPage) < totalPages ==> (prevDisabled <==> currentPage == 1) && (nextDisabled <==> currentPage == totalPages)
      ensures old(currentPage) == totalPages ==> displayed == old(displayed)
      ensures old(currentPage) == totalPages ==> prevDisabled == old(prevDisabled) && nextDisabled == old(nextDisabled)
    {
      if currentPage < totalPages {
        currentPage := currentPage + 1;
        UpdatePagination();
      }
    }

    /** applyFilters: filter, sort, then (on completion) display exactly the sorted cards. */
    method ApplyFilters() returns (ordered: seq<nat>)
      requires Valid()
      modifies this`displayed
      ensures Valid()
      ensures ordered == Ordered(cards, filterState)
      ensures displayed == Visibility(|cards|, ordered)
    {
      var filtered := Filtered(cards, filterState, |cards|);
      ordered := SortCards(cards, filterState, filtered);
      for k := 0 to |cards|
        invariant |displayed| == |cards|
        invariant forall j :: 0 <= j < k ==> (displayed[j] <==> j in ordered)
      {
        displayed := displayed[k := k in ordered];
      }
    }

    method ChangeRole(value: string) returns (ordered: seq<nat>)
      requires Valid()
      modifies this`filterState, this`activeFilters, this`displayed
      ensures Valid()
      ensures filterState == RoleChanged(old(filterState), value)
      ensures activeFilters == UpdateActive(old(activeFilters), "role", value)
      ensures ordered == Ordered(cards, filterState) && displayed == Visibility(|cards|, ordered)
    {
      filterState := RoleChanged(filterState, value);
      activeFilters := UpdateActive(activeFilters, "role", value);
      ordered := ApplyFilters();
    }

    /** The rating select, with parseInt of its value as input (None for NaN). */
    method ChangeRating(parsed: Option<int>) returns (ordered: seq<nat>)
      requires Valid()
      modifies this`filterState, this`activeFilters, this`displayed
      ensures Valid()
      ensures filterState == RatingChanged(old(filterState), parsed)
      ensures activeFilters == UpdateActive(old(activeFilters), "rating", RatingKeyValue(parsed))
      ensures ordered == Ordered(cards, filterState) && displayed == Visibility(|cards|, ordered)
    {
      filterState := RatingChanged(filterState, parsed);
      activeFilters := UpdateActive(activeFilters, "rating", RatingKeyValue(parsed));
      ordered := ApplyFilters();
    }

    method ChangeSort(value: string) returns (ordered: seq<nat>)
      requires Valid()
      modifies this`filterState, this`displayed
      ensures Valid()
      ensures filterState == SortChanged(old(filterState), value)
      ensures ordered == Ordered(cards, filterState) && displayed == Visibility(|cards|, ordered)
    {
      filterState := SortChanged(filterState, value);
      ordered := ApplyFilters();
    }

    /** A chip's close button: its key goes, filterState stays, and the filters are applied again. */
    method ClickRemoveChip(key: string) returns (ordered: seq<nat>)
      requires Valid() && key in activeFilters
      modifies this`activeFilters, this`displayed
      ensures Valid()
      ensures activeFilters == RemoveChip(old(activeFilters), key)
      ensures filterState == old(filterState)
      ensures ordered == Ordered(cards, filterState) && displayed == Visibility(|cards|, ordered)
    {
      activeFilters := RemoveChip(activeFilters, key);
      ordered := ApplyFilters();
    }
  }
}
