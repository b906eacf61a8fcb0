# Accordion filter container — a Dafny model

This project models the core of `AccordionFilterContainer`, the search-result
component that renders product-search filter groups as a single-expansion
accordion. The component owns one piece of state, `openItem`: either `null` or
the title of the one expanded group. Three handlers change it:

- a click on a group header toggles that group;
- Enter pressed on the breadcrumb collapses everything;
- a click on the breadcrumb root collapses everything.

Each render is a pure projection of the props and `openItem`:

- groups without facets are dropped;
- the reserved categories section is emitted first, then the remaining groups in input order;
- every section gets an `open` and a `show` flag;
- the breadcrumb gets an optional secondary label;
- every facet checkbox gets a `checked` flag, asked of the caller's `isOptionSelected` predicate.

Modules:

- `Options`: the `Option` datatype that stands for `null` or a value.
- `Filters`: `Facet`, `FilterGroup`, and the normaliser `NonEmptyFilters` with its laws.
- `OpenState`: the handler events, the transition function `Step`, and `Run` over event sequences.
- `View`: the render tree (`Page`, `Item`, `Body`, `FacetRow`, `Breadcrumb`) and `Compose`.
- `Container`: the class `AccordionFilterContainer`. Its `openItem` field is updated in place by
  the three handler methods; its `Render` function is `Compose` applied to the current state.

JavaScript truthiness is reproduced as written. The render tests `openItem` for truthiness, so
`null` and `""` both count as closed (`View.IsSet`). `handleOpen` and the `open` flags compare
with `===`. An empty-string title is therefore "open" for the comparison and "closed" for the
rendering: `View.EmptyIdOpensWithoutHiding` exhibits this. The exclusivity lemmas state their
precondition on the open id explicitly (`IsSet`, or a non-empty title).

## Model

| member | source | states |
|---|---|---|
| Filters.NonEmptyFilters | react/components/AccordionFilterContainer.js:41 | the result is no longer than the input, every kept group has at least one facet, and a group occurs in the result iff it occurs in the input and has facets |
| Filters.NonEmptyFiltersIsSubsequence | react/components/AccordionFilterContainer.js:41 | the normalised list is an order-preserving subsequence of the input |
| Filters.NonEmptyFiltersMultiplicity | react/components/AccordionFilterContainer.js:41 | each non-empty group is kept exactly as many times as it occurs, and each empty group is dropped entirely |
| Filters.NonEmptyFiltersOfNonEmpty | react/components/AccordionFilterContainer.js:41 | a list with no empty group is returned unchanged |
| Filters.NonEmptyFiltersIdempotent | react/components/AccordionFilterContainer.js:41 | normalising twice equals normalising once |
| Filters.NonEmptyFiltersKeepsDistinctTitles | react/components/AccordionFilterContainer.js:41 | if the input titles are pairwise distinct, so are the titles of the normalised list |
| OpenState.Step | react/components/AccordionFilterContainer.js:25-39 | the one-event transition of `openItem` for a header click (`handleOpen`), a key press (`handleKeyDown`) and the breadcrumb click (line 62); a group can become open only through a click on its own header |
| OpenState.Run | react/components/AccordionFilterContainer.js:23-39 | the state after a sequence of events handled one by one; if a group is open at the end, it was open at the start or some event clicked its header |
| OpenState.ToggleTransition | react/components/AccordionFilterContainer.js:25-33 | toggling the open id closes it; toggling any other id opens exactly that id, replacing whatever was open |
| OpenState.KeyDownTransition | react/components/AccordionFilterContainer.js:35-39 | Enter sets the state to closed; any other key leaves it unchanged |
| OpenState.BreadcrumbDismisses | react/components/AccordionFilterContainer.js:62 | a breadcrumb click closes from any state, is a no-op from closed, and a second click changes nothing |
| OpenState.ToggleTwice | react/components/AccordionFilterContainer.js:28-31 | toggling the same id twice ends closed from every state except the one where that id was already open |
| OpenState.ToggleThenOther | react/components/AccordionFilterContainer.js:28-31 | toggling a and then a different b leaves exactly b open, from any state |
| OpenState.RunAppend | react/components/AccordionFilterContainer.js:23-39 | handling two event sequences one after the other equals handling their concatenation |
| OpenState.RunIgnoresOtherKeys | react/components/AccordionFilterContainer.js:35-39 | removing every key press other than Enter from an event sequence does not change the final state |
| OpenState.OpenIsLastToggle | react/components/AccordionFilterContainer.js:23-39 | if no event can change the state, the state stays as it was; if a group is open, the last state-changing event was a header click on that group |
| OpenState.OpenWasToggled | react/components/AccordionFilterContainer.js:23-33 | starting from the mounted (closed) state, any open id was the target of some header click |
| View.IsSet | react/components/AccordionFilterContainer.js:67-110 | JavaScript truthiness of `openItem` as tested at lines 67-68, 76, 89 and 110: `null` and the empty string are both falsy |
| View.Section | react/components/AccordionFilterContainer.js:86-111 | one `AccordionFilterItem`: keeps its title (the id its header toggles) and body; an open section is always shown, and while `openItem` is truthy a closed section is never shown |
| View.Compose | react/components/AccordionFilterContainer.js:41-142 | the whole render: one section more than there are non-empty groups, with the categories section first |
| View.ComposeOrder | react/components/AccordionFilterContainer.js:86-140 | the categories section comes first, and its tree widget is visible iff the tree is non-empty; then the non-empty groups follow in input order, each with one row per facet |
| View.CheckedIsSelection | react/components/AccordionFilterContainer.js:114-133 | every checkbox stands for the facet at its position and is checked iff `isOptionSelected` holds of that facet |
| View.OpenAndShow | react/components/AccordionFilterContainer.js:86-111 | for every section, categories included: it is open iff `openItem` equals its title, and shown iff `openItem` is falsy or the section is open |
| View.ClosedShowsAll | react/components/AccordionFilterContainer.js:65-111 | in the closed state every section is shown and none is open, and the breadcrumb shows only the primary label, not muted |
| View.BreadcrumbLabel | react/components/AccordionFilterContainer.js:65-83 | the secondary label is present iff `openItem` is truthy, and it is `openItem`; the primary label is muted iff `openItem` is truthy |
| View.ItemTitlesDistinct | react/components/AccordionFilterContainer.js:86-111 | if the rendered groups have distinct titles that differ from the categories id, the rendered sections have pairwise distinct titles |
| View.AtMostOneOpen | react/components/AccordionFilterContainer.js:86-111 | if the rendered titles are unique, at most one section is open |
| View.OpenHidesSiblings | react/components/AccordionFilterContainer.js:86-111 | with a truthy `openItem`, every shown section is open; with unique rendered titles, no section other than the open one is shown |
| View.StaleIdHidesAll | react/components/AccordionFilterContainer.js:76-110 | a truthy `openItem` that matches no rendered section (for example a group that has lost its facets) hides every section and leaves only the breadcrumb, labelled with that id |
| View.EmptyIdOpensWithoutHiding | react/components/AccordionFilterContainer.js:67-110 | for every input, with `openItem` equal to "": every section is shown, a section is open iff its title is "", and no secondary label appears |
| View.SameNameFacetsCheckedApart | react/components/AccordionFilterContainer.js:114-133 | on an example: two facets with the same name in different groups are checked independently, because the predicate sees the whole facet and not just its name |
| View.SelectionOnlyFromPredicate | react/components/AccordionFilterContainer.js:125-133 | two selection predicates that agree on every facet of the input yield the same page: no selection state is kept locally |
| View.BodiesIndependentOfOpenItem | react/components/AccordionFilterContainer.js:92-137 | the section titles and bodies, including every checked flag, do not depend on which group is open |
| View.HeaderClick | react/components/AccordionFilterContainer.js:25-111 | for every input, clicking the header of the open section closes everything and shows all sections; if the rendered titles are unique, clicking another section with a non-empty title makes it the only section shown, and open |
| View.BrandScenario | react/components/AccordionFilterContainer.js:41-111 | worked example: a group with no facets is dropped; clicking "brand" opens it alone and it labels the breadcrumb; then Enter shows every section collapsed |
| Container.AccordionFilterContainer.constructor | react/components/AccordionFilterContainer.js:23 | the component mounts with every group collapsed |
| Container.AccordionFilterContainer.HandleOpen | react/components/AccordionFilterContainer.js:25-33 | the field becomes `Step` of its old value and a header click on `id`: closed if `id` was open, `id` otherwise (`OpenState.ToggleTransition`) |
| Container.AccordionFilterContainer.HandleKeyDown | react/components/AccordionFilterContainer.js:35-39 | the field becomes `Step` of its old value and the key press: closed on Enter, unchanged for any other key (`OpenState.KeyDownTransition`) |
| Container.AccordionFilterContainer.HandleBreadcrumbClick | react/components/AccordionFilterContainer.js:62 | the field becomes closed |
| Container.AccordionFilterContainer.Render | react/components/AccordionFilterContainer.js:50-142 | the current render has one section per non-empty group plus categories; open and show flags follow the field; a secondary label appears iff the field is truthy |

## Left out

- Markup, CSS class names and the `styles` import are presentation only. The model keeps only the flags handed to the widgets.
- `intl.formatMessage` and `injectIntl`: label text is not modelled. The breadcrumb's secondary label holds the message id (`openItem`) that would be looked up. The primary label is a fixed message, represented only by its muted flag.
- `IconCaret`, `Checkbox`, `AccordionFilterItem` and `DepartmentFilters` are external widgets. The model keeps only the data and flags passed to them. The category tree is an opaque sequence; only its length is inspected.
- `e.preventDefault()` in `handleOpen` is a browser side effect with no state content.
- `onCategorySelect` is not modelled; the model does not carry it to the tree widget. `onFilterCheck` is represented only by the facet each `FacetRow` would pass to it; the callback itself is not modelled.
- The model assumes `filters`, every group's `facets` and `tree` are present arrays. The source reads `.length` on `facets` (line 41) and on `tree` (line 95), and calls `filters.filter`. If any of them is missing, the source throws during render. The prop types (lines 147, 157) allow that, but the model's types cannot represent it.
- `PropTypes` declarations are runtime type checks with no logic.
- React's asynchronous state updates are not modelled. The model assumes each handler sees the state of the latest render, i.e. events are handled one at a time with a re-render in between (`OpenState.Run`). Stale closures within one render are therefore outside the model.
