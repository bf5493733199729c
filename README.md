# Client-side behaviour of a therapy-practice website, in Dafny

This project models the browser scripts that give the site's static pages their behaviour, and proves what they guarantee. There are six modules, one per script. The older JavaScript copy of the read-more script is modelled next to its TypeScript version.

- `FaqAccordion` (`faq_accordion.dfy`) is the FAQ accordion. Items collapse and expand through `toggleFAQ`, `expandFAQ` and `collapseFAQ`, with a single-open policy. It also covers keyboard navigation and the public `expandAll`, `collapseAll` and `expandByCategory`. Items are identified by their position among the adopted FAQ items; an out-of-range position stands for an element that is not in the item map.
- `ContactForm` (`contact_form.dfy`) is the contact form. It covers:
  - field validation, with its exact set of visible error messages and the honeypot;
  - `formDataToObject`;
  - the submit flow, with the server's answer as an input;
  - the two banner close buttons.
- `Testimonials` (`testimonials_filter.dfy`) is the testimonials manager. It covers:
  - the role, rating and sort selects;
  - the active-filter chips;
  - filtering, sorting and display;
  - pagination over the full card list.
- `MobileMenu` (`mobile_menu.dfy`) is the slide-in mobile menu. It covers:
  - the open and close state, kept in classes, `aria-expanded` and a remembered focus target;
  - the Tab focus trap;
  - Escape, and the closing rule for a wide window.
- `ActiveSection` (`active_section.dfy`) is the section highlighter. It marks the navigation link of the section in view, on load, on intersection and on click. A click also closes the mobile menu in its own, partial way.
- `ReadMore` (`read_more.dfy`) covers expandable testimonial quotes and `[data-read-more]` buttons, in the TypeScript version and in the JavaScript copy.

Each module has the same layout:

- a value datatype holds the part of the page the script writes;
- pure functions follow the script step by step, and their `ensures` clauses state the net effect;
- lemmas state what holds across sequences of events;
- a class mirrors the script's mutable state, and each of its methods is proved equal to the function it implements.

`Wrappers` (`wrappers.dfy`) holds the `Option` type.

## Model

| member | source | states |
|---|---|---|
| FaqAccordion.Setup | src/scripts/faq-accordion.ts:30-57 | Items missing a button, answer or icon are skipped. The map holds exactly the adopted complete items, each collapsed and keeping its markup's category and attributes. With complete markup, item k of the map is item k of the page. |
| FaqAccordion.Collapse | src/scripts/faq-accordion.ts:109-123 | collapseFAQ: the item ends collapsed with data-expanded, aria-expanded and aria-hidden agreeing. Every other item is unchanged, and an unknown item changes nothing. |
| FaqAccordion.CloseOthers | src/scripts/faq-accordion.ts:125-131 | closeAllOtherItems: every other expanded item is collapsed through collapseFAQ. The current item and collapsed items are untouched. |
| FaqAccordion.Expand | src/scripts/faq-accordion.ts:88-107 | expandFAQ: the item ends with expandFAQ's attributes. Under the single-open policy every other expanded item passes through collapseFAQ and the collapsed ones stay as they were; otherwise nothing else changes. |
| FaqAccordion.Toggle | src/scripts/faq-accordion.ts:77-86 | toggleFAQ: an expanded item gets collapseFAQ's attributes and a collapsed one expandFAQ's. Collapsing, or expanding with several items allowed open, leaves every other item unchanged. Expanding under the single-open policy collapses exactly the other expanded items. An item absent from the map is a no-op. |
| FaqAccordion.ExpandPicked | src/scripts/faq-accordion.ts:273-279 | The steps of expandAll and expandByCategory. Categories are kept. With several items allowed open, exactly the picked collapsed items among the first n get expandFAQ's attributes and every other item stays as it was. Under either policy an item that is not picked is at most collapsed. |
| FaqAccordion.ExpandPickedStep | src/scripts/faq-accordion.ts:289-295 | One more loop step expands the next item exactly when it is picked and still collapsed. |
| FaqAccordion.CollapseUpTo | src/scripts/faq-accordion.ts:281-287 | collapseAll: the processed items end collapsed. Already-collapsed items are untouched, and expanded ones pass through collapseFAQ. |
| FaqAccordion.NextWraps | src/scripts/faq-accordion.ts:162 | `(i + 1) % n` moves to the next index and wraps from the last index to the first. |
| FaqAccordion.FocusTarget | src/scripts/faq-accordion.ts:160-187 | Only the arrow keys, Home and End move focus, always to an index in range. ArrowDown goes to the next item and wraps from the last to the first. ArrowUp goes to the previous item and wraps from the first to the last. Home goes to item 0 and End to the last item. |
| FaqAccordion.KeyEffect | src/scripts/faq-accordion.ts:153-196 | Enter and Space toggle the item. Escape collapses the item through collapseFAQ when it is expanded. Otherwise Escape changes nothing, and it never touches another item. Other keys change nothing. |
| FaqAccordion.ToggleTwice | src/scripts/faq-accordion.ts:77-86 | With several items allowed open, toggling twice restores consistent items exactly. |
| FaqAccordion.ExpandPickedExclusive | src/scripts/faq-accordion.ts:88-107 | Under the single-open policy, expandAll and expandByCategory keep at most one item open. |
| FaqAccordion.ExpandKeepsMirrored | src/scripts/faq-accordion.ts:88-131 | expandFAQ, including the items it closes, keeps every item's attributes in agreement with its flag. |
| FaqAccordion.ToggleKeepsMirrored | src/scripts/faq-accordion.ts:77-86 | toggleFAQ keeps every item's attributes in agreement with its flag. |
| FaqAccordion.ExpandPickedMirrored | src/scripts/faq-accordion.ts:273-279 | expandAll and expandByCategory keep every item's attributes in agreement with its flag. |
| FaqAccordion.ExpandAllLeavesLast | src/scripts/faq-accordion.ts:273-279 | Under the single-open policy, expandAll leaves exactly the last item expanded. |
| FaqAccordion.ExpandPickedLeavesLast | src/scripts/faq-accordion.ts:273-295 | Under the single-open policy, expandAll or expandByCategory leaves open exactly the last picked item, and nothing else. |
| FaqAccordion.ExpandPickedNonePicked | src/scripts/faq-accordion.ts:289-295 | expandByCategory with a category no item has changes nothing. |
| FaqAccordion.ExpandAllOpensAll | src/scripts/faq-accordion.ts:273-279 | With several items allowed open, expandAll opens every item. |
| FaqAccordion.CollapseAllClosesAll | src/scripts/faq-accordion.ts:281-287 | collapseAll closes every item and leaves collapsed ones untouched. |
| FaqAccordion.ApplyExclusive | src/scripts/faq-accordion.ts:59-131 | Every event keeps the single-open invariant. |
| FaqAccordion.ApplyMirrored | src/scripts/faq-accordion.ts:59-131 | Every event keeps the attributes in agreement with the state. |
| FaqAccordion.RunExclusive | src/scripts/faq-accordion.ts:15 | Under the single-open policy, no sequence of events opens two items. |
| FaqAccordion.RunMirrored | src/scripts/faq-accordion.ts:30-131 | From markup served collapsed, the attributes agree with the state after any sequence of events. |
| FaqAccordion.SetupMirrored | src/scripts/faq-accordion.ts:30-57 | Setup over markup served collapsed gives consistent items. |
| FaqAccordion.RunKeepsMirrored | src/scripts/faq-accordion.ts:59-131 | Attribute agreement survives any sequence of events. |
| FaqAccordion.FocusWraps | src/scripts/faq-accordion.ts:160-174 | ArrowUp undoes ArrowDown and ArrowDown undoes ArrowUp, at every index. |
| FaqAccordion.Accordion.HandleKeyboard | src/scripts/faq-accordion.ts:149-197 | Returns the index to focus and changes the items as KeyEffect says. |
| FaqAccordion.Accordion.ExpandAll | src/scripts/faq-accordion.ts:273-279 | The forEach loop equals ExpandPicked over all items. |
| FaqAccordion.Accordion.CollapseAll | src/scripts/faq-accordion.ts:281-287 | The forEach loop equals CollapseUpTo over all items. |
| FaqAccordion.Accordion.ExpandByCategory | src/scripts/faq-accordion.ts:289-295 | The loop equals ExpandPicked restricted to the category. |
| FaqAccordion.Accordion.CloseAllOtherItems | src/scripts/faq-accordion.ts:125-131 | The loop equals CloseOthers. |
| FaqAccordion.Accordion.CollapseFaq | src/scripts/faq-accordion.ts:109-123 | The method's new items equal Collapse. |
| FaqAccordion.Accordion.ExpandFaq | src/scripts/faq-accordion.ts:88-107 | The method's new items equal Expand under the accordion's policy. |
| FaqAccordion.Accordion.ToggleFaq | src/scripts/faq-accordion.ts:77-86 | The method's new items equal Toggle. |
| ContactForm.ShownStep | src/scripts/contact-form.ts:46-96 | Each check reveals its own error element exactly when it fails and touches no other element. |
| ContactForm.AcceptsInOrder | src/scripts/contact-form.ts:44-102 | The verdict accumulated check by check equals the control-by-control acceptance condition. |
| ContactForm.ShownAll | src/scripts/contact-form.ts:38-96 | After the reset and all six checks, each error element on the page is visible iff its check fails. |
| ContactForm.AcceptsIffNoFailure | src/scripts/contact-form.ts:32-103 | A form is accepted iff no field check fails and the honeypot is empty. |
| ContactForm.VerdictMatchesErrors | src/scripts/contact-form.ts:32-103 | With every error element present, acceptance coincides with "no error shown and no bot". |
| ContactForm.HoneypotOnlyRejects | src/scripts/contact-form.ts:98-100 | A filled honeypot rejects the form. The error elements are exactly those the field checks of the same form would set, so field errors still show and the honeypot adds none. |
| ContactForm.NoStaleErrors | src/scripts/contact-form.ts:38-41 | An earlier validation leaves no trace: errors depend only on the last submission. |
| ContactForm.ValidFormExample | src/scripts/contact-form.ts:32-103 | A concrete valid form is accepted and shows no error. |
| ContactForm.LastWinsHasKey | src/scripts/contact-form.ts:11-25 | formDataToObject has a key iff some string entry carries it. File entries are dropped. |
| ContactForm.LastWinsValue | src/scripts/contact-form.ts:11-25 | The value under a key is that of the last string entry with the key. |
| ContactForm.FormDataToObject | src/scripts/contact-form.ts:11-25 | The loop builds exactly the last-wins object. |
| ContactForm.RequestNamesForm | src/scripts/contact-form.ts:150-153 | The posted body always carries form-name = contact. |
| ContactForm.Submit | src/scripts/contact-form.ts:128-179 | handleFormSubmit: errors follow validation, and a rejected form changes nothing else. An accepted form posts its body and ends with submit shown and loading hidden. Success shows the success banner and resets the form; failure or an exception shows the error banner. |
| ContactForm.RejectedSubmitSendsNothing | src/scripts/contact-form.ts:133-135 | A rejected form posts nothing and leaves the banners and the data untouched. |
| ContactForm.CloseButtonsIdempotent | src/scripts/contact-form.ts:108-123 | Each close button is idempotent, and the two commute. |
| ContactForm.CloseSuccess | src/scripts/contact-form.ts:116-118 | The success banner ends hidden, and nothing else on the page changes. |
| ContactForm.CloseError | src/scripts/contact-form.ts:120-122 | The error banner ends hidden, and nothing else on the page changes. |
| ContactForm.ContactPage.ValidateForm | src/scripts/contact-form.ts:32-103 | Returns exactly Accepts and leaves exactly the error elements ErrorsAfter describes. |
| ContactForm.ContactPage.RunChecks | src/scripts/contact-form.ts:44-96 | The six checks run in order: the verdict is their conjunction and the elements reflect all six. |
| ContactForm.ContactPage.CheckField | src/scripts/contact-form.ts:44-96 | One check: reports its failure and reveals only its own element. |
| ContactForm.ContactPage.HandleFormSubmit | src/scripts/contact-form.ts:128-179 | The method's new page state equals Submit. |
| ContactForm.ContactPage.ClickCloseSuccess | src/scripts/contact-form.ts:116-118 | The new page state equals CloseSuccess. |
| ContactForm.ContactPage.ClickCloseError | src/scripts/contact-form.ts:120-122 | The new page state equals CloseError. |
| Testimonials.RoleChanged | src/scripts/testimonials-filter.ts:34-39 | Role 'all' clears the role criterion, any other value sets it, and nothing else changes. |
| Testimonials.RatingChanged | src/scripts/testimonials-filter.ts:45-50 | The parsed rating is stored as is; a value that does not parse clears it. |
| Testimonials.SortChanged | src/scripts/testimonials-filter.ts:57-62 | sortBy becomes the dash-free prefix of the value. sortOrder is present iff the value holds a dash, and then it is dash-free. Role and rating stay. |
| Testimonials.BeforeDash | src/scripts/testimonials-filter.ts:58 | The first half of `split('-')` is a dash-free prefix. |
| Testimonials.AfterDash | src/scripts/testimonials-filter.ts:58 | There is a second half exactly when the value contains a dash. |
| Testimonials.SplitJoined | src/scripts/testimonials-filter.ts:58-60 | Splitting `by-order` gives back both halves. |
| Testimonials.SortValueRoundTrip | src/scripts/testimonials-filter.ts:57-62 | Selecting `by-order` sets sortBy and sortOrder from its halves and nothing else. |
| Testimonials.NoDashBeforeDash | src/scripts/testimonials-filter.ts:58 | A value with no dash is its own first half. |
| Testimonials.Matches | src/scripts/testimonials-filter.ts:191-203 | With no criterion every card matches. A match has the chosen role and at least the chosen rating. A non-empty role and a non-zero rating are the only criteria. A mismatch fails one of them. |
| Testimonials.Filtered | src/scripts/testimonials-filter.ts:193-204 | Exactly the matching cards are kept, in increasing order. |
| Testimonials.Insert | src/scripts/testimonials-filter.ts:206-217 | Inserting into a sorted list keeps it sorted and adds exactly one card. |
| Testimonials.HeadStaysFirst | src/scripts/testimonials-filter.ts:206-217 | The head of a sorted list still ranks first after an insertion into its tail. |
| Testimonials.SortCards | src/scripts/testimonials-filter.ts:206-217 | The sort result is ordered by the comparator and is a permutation of its input. |
| Testimonials.Ordered | src/scripts/testimonials-filter.ts:190-217 | The sorted array `filteredCards` refers only to existing cards. |
| Testimonials.OrderedIsSortedFilter | src/scripts/testimonials-filter.ts:190-217 | The sorted array holds exactly the matching cards, ordered by date or rating, ascending for "asc" and descending otherwise. |
| Testimonials.Visibility | src/scripts/testimonials-filter.ts:220-228 | A card is displayed iff it is in the filtered list. |
| Testimonials.DisplayedIffMatches | src/scripts/testimonials-filter.ts:190-228 | After applyFilters a card is displayed iff it matches the filter. |
| Testimonials.UpdateActive | src/scripts/testimonials-filter.ts:149-159 | The chip `type-value` is present iff value is neither 'all' nor empty. All other chips are unchanged. |
| Testimonials.ClearingRatingAddsNaN | src/scripts/testimonials-filter.ts:45-50 | Choosing a non-numeric rating clears the criterion but adds the chip "rating-NaN". |
| Testimonials.RoleAllKeepsEarlierRole | src/scripts/testimonials-filter.ts:34-39 | Choosing 'all' after a role leaves that role's chip in place. |
| Testimonials.RemoveChip | src/scripts/testimonials-filter.ts:180-184 | Chip removal deletes only its own key. |
| Testimonials.TotalPages | src/scripts/testimonials-filter.ts:67 | The page count is the ceiling of n/6. |
| Testimonials.PrevPage | src/scripts/testimonials-filter.ts:128-133 | Prev goes back one page and is a no-op on page 1. |
| Testimonials.NextPage | src/scripts/testimonials-filter.ts:135-140 | Next goes forward one page and is a no-op on the last page. |
| Testimonials.PagingStaysInRange | src/scripts/testimonials-filter.ts:128-140 | The current page stays within [1, totalPages]. |
| Testimonials.PageVisibility | src/scripts/testimonials-filter.ts:102-110 | Card idx is shown iff (p-1)·6 ≤ idx < p·6. |
| Testimonials.EveryCardOnOnePage | src/scripts/testimonials-filter.ts:102-110 | Every card is shown on exactly one page, and that page exists. |
| Testimonials.PageOfIndex | src/scripts/testimonials-filter.ts:103-104 | The card at idx belongs to page idx/6 + 1. |
| Testimonials.TestimonialsManager.UpdatePagination | src/scripts/testimonials-filter.ts:102-116 | Shows exactly the current page's cards. Prev is disabled iff on page 1, Next iff on the last page. |
| Testimonials.TestimonialsManager.ClickPrev | src/scripts/testimonials-filter.ts:128-133 | The page moves back as PrevPage says. A real move redraws the page slice: Prev is disabled iff on page 1, and Next iff on the last page. On page 1 the slice and both flags are unchanged. |
| Testimonials.TestimonialsManager.ClickNext | src/scripts/testimonials-filter.ts:135-140 | The page moves forward as NextPage says. A real move redraws the page slice and sets both disabled flags. On the last page the slice and both flags are unchanged. |
| Testimonials.TestimonialsManager.ApplyFilters | src/scripts/testimonials-filter.ts:190-240 | The loop displays exactly Visibility of the ordered matching cards. |
| Testimonials.TestimonialsManager.ClickRemoveChip | src/scripts/testimonials-filter.ts:180-184 | Removes the chip and re-applies the unchanged filter state. |
| Testimonials.TestimonialsManager.ChangeRole | src/scripts/testimonials-filter.ts:34-39 | The filter becomes RoleChanged, the chips UpdateActive for "role". The display becomes Visibility of the ordered matching cards. |
| Testimonials.TestimonialsManager.ChangeRating | src/scripts/testimonials-filter.ts:45-50 | The filter becomes RatingChanged, the chips UpdateActive for "rating". The display is re-applied. |
| Testimonials.TestimonialsManager.ChangeSort | src/scripts/testimonials-filter.ts:57-62 | The filter becomes SortChanged; the chips stay; the display is re-applied. |
| MobileMenu.Open | src/scripts/mobile-menu.ts:59-79 | The menu gains translate-x-0 and loses translate-x-full. The overlay gains block and loses hidden, and the body gains overflow-hidden. aria-expanded becomes "true". Focus is remembered, then moves to the close button, and the listeners are installed. Other classes are untouched. |
| MobileMenu.Close | src/scripts/mobile-menu.ts:82-101 | Reverses each of those steps and removes the listeners. Focus goes back to the remembered element only when it is an HTML element. |
| MobileMenu.TrapFocus | src/scripts/mobile-menu.ts:33-56 | A no-op unless the menu is open. Tab on the last focusable element goes to the first and Shift+Tab on the first goes to the last. Every other Tab leaves the menu state unchanged. Focus only ever moves onto a focusable element of the menu. |
| MobileMenu.KeyDown | src/scripts/mobile-menu.ts:33-108 | Nothing listens while the menu is closed. While it listens, Escape closes the menu. Any other key goes through the focus trap when focus is inside the menu, and changes nothing otherwise. |
| MobileMenu.Resized | src/scripts/mobile-menu.ts:125-132 | Closes the menu only when width ≥ 768 and the menu is open. |
| MobileMenu.OpenCloseRoundTrip | src/scripts/mobile-menu.ts:59-101 | From the closed page, open then close restores every class, aria-expanded, the listeners and HTML focus. |
| MobileMenu.RepeatedOpenClose | src/scripts/mobile-menu.ts:59-101 | A second open changes only the remembered focus, which becomes the close button. Close is idempotent. |
| MobileMenu.RunMirrorsAria | src/scripts/mobile-menu.ts:59-132 | Under any sequence of the events this script handles, aria-expanded is "true" iff the menu has translate-x-0. The nav-click close of the section highlighter is not among them, but NavCloseMirrorsAria shows it keeps this too. |
| MobileMenu.RunListensWhileOpen | src/scripts/mobile-menu.ts:77-78 | Under any sequence of the events this script handles, the key listeners exist exactly while the menu is open. The nav-click close of the section highlighter breaks this (NavCloseLeavesListeners). |
| MobileMenu.EscapeClosesOnlyOpenMenu | src/scripts/mobile-menu.ts:104-108 | Escape closes an open menu and leaves a closed one alone. |
| MobileMenu.TrapKeepsFocusInside | src/scripts/mobile-menu.ts:41-55 | With the menu open, Tab keeps focus on the menu's focusable elements. |
| MobileMenu.MobileMenuController.DispatchKeyDown | src/scripts/mobile-menu.ts:33-108 | Listener order: the trap runs first, then Escape; the result equals KeyDown. |
| MobileMenu.MobileMenuController.OpenMenu | src/scripts/mobile-menu.ts:59-79 | The new menu state equals Open with the controller's close button. |
| MobileMenu.MobileMenuController.CloseMenu | src/scripts/mobile-menu.ts:82-101 | The new menu state equals Close. |
| MobileMenu.MobileMenuController.TrapFocusListener | src/scripts/mobile-menu.ts:33-56 | The new menu state equals TrapFocus over the controller's focusable elements. |
| MobileMenu.MobileMenuController.ResizeCheck | src/scripts/mobile-menu.ts:125-132 | The new menu state equals Resized. |
| ActiveSection.Tracked | src/scripts/active-section.ts:18-24 | The tracked sections are exactly the `section[id]` elements that have a `/#id` link. |
| ActiveSection.TrackedKeepsOrder | src/scripts/active-section.ts:18-24 | Filtering keeps document order. |
| ActiveSection.Cleared | src/scripts/active-section.ts:31-40 | A cleared link is unmarked; its href and other classes stay. |
| ActiveSection.Activated | src/scripts/active-section.ts:54-63 | A marked link has text-primary, aria-current="page" and a w-full indicator. |
| ActiveSection.ClearAll | src/scripts/active-section.ts:30-42 | clearAllActiveLinks unmarks every link. |
| ActiveSection.ClearAllIdempotent | src/scripts/active-section.ts:30-42 | After clearing no link carries aria-current, and clearing again changes nothing. |
| ActiveSection.FirstLinkTo | src/scripts/active-section.ts:53 | querySelector finds the first link with the exact href, or none. |
| ActiveSection.UpdateActiveLink | src/scripts/active-section.ts:45-65 | Nothing changes off the home page or for a null or empty id. Otherwise only the first link to `/#id` is marked and every other link is unmarked. |
| ActiveSection.FirstLinkAtUnique | src/scripts/active-section.ts:53 | There is only one first matching link. |
| ActiveSection.UpdateKeepsAtMostOneCurrent | src/scripts/active-section.ts:45-65 | Updates keep at most one link with aria-current. |
| ActiveSection.UpdateMarksLinkToId | src/scripts/active-section.ts:45-65 | On the home page the first link to `/#id` ends marked, and it is the only one. |
| ActiveSection.ObserverCallback | src/scripts/active-section.ts:97-105 | The first intersecting entry becomes active; with none intersecting, nothing changes. |
| ActiveSection.InitialTarget | src/scripts/active-section.ts:108-130 | With a hash whose element exists, its id; with a hash and no element, nothing. Without a hash, the first tracked section across the viewport's middle, else the first tracked section, else nothing. |
| ActiveSection.Loaded | src/scripts/active-section.ts:143-149 | Loading changes nothing off the home page or without tracked sections. Otherwise every server-set mark is reset, so only the first link to the initial target's `/#id` ends marked. Every other link ends unmarked, no link changes anything but its marking, and at most one link is current. |
| ActiveSection.LoadWithoutHashMarksOne | src/scripts/active-section.ts:108-149 | Without a hash, exactly one link ends marked. |
| ActiveSection.NavClose | src/scripts/active-section.ts:83-93 | An open menu loses translate-x-0 and gains translate-x-full. The overlay gains hidden, aria-expanded becomes "false" and overflow-hidden goes. Every other class on the menu, overlay and body stays. Listeners and focus stay, and a closed menu is untouched. |
| ActiveSection.NavCloseMirrorsAria | src/scripts/active-section.ts:87-93 | aria-expanded still mirrors translate-x-0. |
| ActiveSection.NavCloseLeavesListeners | src/scripts/active-section.ts:87-93 | Unlike closeMenu: the key listeners stay installed, block stays on the overlay next to hidden, and focus is not restored. |
| ActiveSection.NavClick | src/scripts/active-section.ts:68-94 | An absent target changes no link and no menu state. Otherwise the link is updated (on the home page) and an open menu is closed. |
| ActiveSection.ClickMarksClickedLink | src/scripts/active-section.ts:153-160 | Clicking the first link to an existing section marks it alone and leaves the menu shut. |
| ActiveSection.ClickWithoutTargetChangesNothing | src/scripts/active-section.ts:153-160 | Clicking a link whose section is missing changes no link and no menu state. |
| ActiveSection.ClickNavLink | src/scripts/active-section.ts:153-160 | An href that does not start with `/#` changes nothing. For `/#id`, a missing section changes nothing. An existing one updates the links for id and closes the menu as NavClose does. |
| ActiveSection.Highlighter.HandleInitialState | src/scripts/active-section.ts:108-130 | The find loops and the branches equal UpdateActiveLink of InitialTarget. |
| ActiveSection.Highlighter.ObserverCallbackOn | src/scripts/active-section.ts:97-105 | The find loop equals ObserverCallback. |
| ActiveSection.Highlighter.ClearAllActiveLinks | src/scripts/active-section.ts:30-42 | The loop leaves exactly ClearAll of the old links. |
| ActiveSection.Highlighter.UpdateActiveLinkTo | src/scripts/active-section.ts:45-65 | The new links equal UpdateActiveLink. |
| ActiveSection.Highlighter.CloseMenuFromNav | src/scripts/active-section.ts:87-93 | The mobile menu's new state equals NavClose. |
| ActiveSection.Highlighter.HandleNavClick | src/scripts/active-section.ts:68-94 | The links and the menu together end as NavClick says. |
| ActiveSection.Highlighter.DomContentLoaded | src/scripts/active-section.ts:143-149 | The new links equal Loaded. |
| ActiveSection.ClearThenUpdate | src/scripts/active-section.ts:30-65 | Clearing all links and then marking an id leaves only the first link to `/#id` marked and every other link unmarked. Each link keeps its href, other classes and indicator. |
| ReadMore.InitQuote | src/scripts/read-more.ts:14-53 | Quotes missing content or button are skipped. Content taller than maxHeight becomes expandable, clipped to maxHeight and wired, and keeps its classes and content height. Otherwise only the button is hidden. |
| ReadMore.ClickQuote | src/scripts/read-more.ts:31-48 | Flips `expanded`, and nothing else but the button state changes. aria-expanded then equals the new state. The label reads 'Show less' when expanded and 'Read more' when collapsed. The target height is the full height when expanding and maxHeight when collapsing. |
| ReadMore.ClickTwiceRestores | src/scripts/read-more.ts:32-47 | Two clicks restore a consistent quote exactly. |
| ReadMore.InitQuoteMirrors | src/scripts/read-more.ts:20-29 | A quote served collapsed, with aria "false" and label "Read more", is consistent after setup. |
| ReadMore.ClicksAlternate | src/scripts/read-more.ts:42 | After n clicks the quote is expanded iff it started expanded xor n is odd. |
| ReadMore.ClickQuoteJs | src/scripts/read-more.js:31-45 | The JavaScript handler throws only on a wired button without `.button-text`. |
| ReadMore.JsClickMatchesTs | src/scripts/read-more.js:31-45 | The JavaScript click leaves the same state as the TypeScript one. It throws exactly when `.button-text` is missing, after the toggle and aria update. |
| ReadMore.ElementById | src/scripts/read-more.ts:105 | getElementById finds an element iff the id is non-empty and present. |
| ReadMore.InitButton | src/scripts/read-more.ts:101-126 | Buttons with an empty id or a missing element are skipped. The others clip the content to 3 line heights and hide its overflow. They add the transition classes to the content's own classes and capture that height. |
| ReadMore.InitButtonJsMatchesTs | src/scripts/read-more.js:109-130 | The JavaScript setup, which only checks the lookup, equals the TypeScript one. |
| ReadMore.InitButtons | src/scripts/read-more.ts:98-127 | The forEach over buttons keeps the buttons' count and the elements' ids, and leaves unprocessed buttons untouched. |
| ReadMore.InitButtonsKeeps | src/scripts/read-more.ts:101-111 | Setup keeps every element's line height and scrollHeight and every button's target. It leaves skipped buttons, and elements no processed button names, unchanged. |
| ReadMore.InitButtonsSetsUp | src/scripts/read-more.ts:104-126 | Every processed button whose target exists ends listening, with the captured height of three line heights. Its content ends clipped to that height, with overflow hidden. Its classes end as its own classes plus the transition classes. |
| ReadMore.ClickReadMore | src/scripts/read-more.ts:117-125 | At the captured three-line height a click expands to scrollHeight and says 'Read Less'; otherwise it collapses to three lines and says 'Read More'. Nothing else changes. |
| ReadMore.ReadMoreAlternates | src/scripts/read-more.ts:113-125 | After setup the first click expands and the second collapses back to the set-up state. This holds when the full height differs from three lines. |
| ReadMore.ShortContentStaysReadLess | src/scripts/read-more.js:121-129 | When the full height equals three lines, every click says 'Read Less'. |
| ReadMore.ExpandableQuotes.InitExpandableQuotes | src/scripts/read-more.ts:8-54 | The loop sets every quote up as InitQuote says. |
| ReadMore.ExpandableQuotes.Click | src/scripts/read-more.ts:31-48 | Quote k becomes ClickQuote of itself, and the other quotes stay. |
| ReadMore.ReadMorePanel.InitReadMore | src/scripts/read-more.ts:98-127 | The loop equals InitButtons over all buttons. |
| ReadMore.ReadMorePanel.Click | src/scripts/read-more.ts:117-125 | The new panel state equals ClickReadMore. |

The JavaScript copy's quote setup (src/scripts/read-more.js:14-50) is the same as the TypeScript one and is modelled by `ReadMore.InitQuote`. Its button click (src/scripts/read-more.js:121-129) recomputes the captured three-line height, so `ReadMore.ClickReadMore` models it too.

## Behaviour worth knowing

The model reproduces these behaviours of the code as written:

- `expandAll` under the single-open policy leaves only the last item open. Each `expandFAQ` call closes the previous one.
- Pagination slices the full card list, not the filtered one, and pagination controls exist only when there are more than six cards.
- `applyFilters` never reorders the cards in the page. Display is set card by card by membership in the sorted array, and the array's order only drives the stagger of the animation.
- A non-numeric rating stores no criterion but adds the chip `rating-NaN`.
- Choosing role `all` removes only the chip `role-all`, so an earlier `role-x` chip stays. Removing a chip does not change the filter state.
- Sort values are stored unchecked. A value without a dash leaves `sortOrder` undefined, which sorts descending.
- A nav-link click closes the mobile menu without `closeMenu`. The Escape and focus-trap listeners stay installed, `block` stays on the overlay, and focus is not restored.
- A read-more button whose content is exactly three lines tall stays at "Read Less" forever.

## Left out

- GSAP and ScrollTrigger animation, the fallback CSS animations, and the `focus`/`blur` styling in the FAQ are left out. The model keeps only the target heights that the quote animation is given.
- The network request (`fetch`, `FormData`, `URLSearchParams`) becomes a three-way outcome input: ok, not ok, or thrown. Console logging is dropped.
- The browser's constraint validation (`required`, `minlength`, `pattern`, `type=email`) is an input boolean per control.
- Floating point is not modelled. Line heights, scrollHeight and bounding boxes are integers, and NaN line heights are not covered.
- Dates in the sort comparator are integer timestamps, and NaN comparisons are not modelled.
- Testimonials.TestimonialsManager.ApplyFilters: the source sets each card's `display` in the `onComplete` callback of the fade-out. That callback runs after a 0.3 s fade with a 0.05 s stagger per card. The model applies it at once. It therefore loses the interleaving where a Prev or Next click, or another filter change, lands during the fade. In the source the callback then runs last and its display of every matching card replaces the page slice the click showed. In the model the click runs last and its page slice stands.
- ContactForm.Submit: `handleFormSubmit` is async and awaits `fetch`, but the model runs it as one atomic step. It does not show the loading state visible during the request (submit hidden, loading shown). Nor does it show events that land during the await: a second submit, which nothing guards against, a banner close, or a field edit.
- Timers are not modelled: the resize debounce (only the check inside it is) and the staggered `setTimeout` calls.
- The following browser wiring is not modelled, except as the events it delivers:
  - listener registration;
  - `DOMContentLoaded` bootstrapping;
  - `scrollIntoView`;
  - `innerHTML` rendering of the chips;
  - the font-loading and fade-in scripts.
- Hashes and ids that are invalid CSS selectors are not modelled, beyond the empty id. `querySelector` would throw on them. Such hashes are treated as plain ids.
- Testimonials.SortCards: stability of the sort is not proved. The ordering and the permutation are.
- FaqAccordion.Accordion.HandleKeyboard: the focus move returns an index and does not model the button lookup inside the item.
- ActiveSection.NavClick: the `preventDefault()` call is not modelled, because the model has no navigation. A nav click whose section is missing, such as `/#services` on another page, still cancels the browser's navigation. The model shows only that no link and no menu state changes.
- MobileMenu.TrapKeepsFocusInside: the browser's own Tab move is not modelled. A Tab away from the edges leaves `active` as the handler leaves it, so the lemma covers only the handler's own moves.
- ActiveSection.Highlighter.constructor: the section boxes are fixed when the highlighter is built. The script measures `getBoundingClientRect` when `handleInitialState` runs at `DOMContentLoaded`, and layout changes in between are not modelled.
