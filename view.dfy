/**
 * The render tree the accordion derives from its props and `openItem`
 * (react/components/AccordionFilterContainer.js:43, 50-142), with markup,
 * CSS classes and label text stripped to the flags passed to the widgets.
 * The category tree is opaque: it is a sequence of some type `C`.
 */
module View {
  import opened Options
  import opened Filters
  import opened OpenState

  /** Reserved id of the categories group, also its label key. */
  const CATEGORIES_TITLE := "store/search.filter.title.categories"

  /** JavaScript truthiness of `openItem`: `null` and the empty string are falsy. */
  predicate IsSet(openItem: Option<string>)
    ensures openItem == None ==> !IsSet(openItem)
    ensures openItem == Some("") ==> !IsSet(openItem)
  {
    openItem.Some? && openItem.value != ""
  }

  /** Breadcrumb header: the primary label is muted, and the secondary label shown, iff `openItem` is truthy. */
  datatype Breadcrumb = Breadcrumb(primaryMuted: bool, secondaryLabel: Option<string>)

  /** One checkbox: the facet it reports to `onFilterCheck`, and its `checked` flag. */
  datatype FacetRow = FacetRow(facet: Facet, checked: bool)

  /** What a section holds: the category tree widget, or the facet checkboxes. */
  datatype Body<C> =
    | DepartmentFilters(tree: seq<C>, isVisible: bool)
    | FacetList(rows: seq<FacetRow>)

  /** One `AccordionFilterItem`: its title (also the id its header toggles) and its flags. */
  datatype Item<C> = Item(title: string, open: bool, show: bool, body: Body<C>)

  datatype Page<C> = Page(breadcrumb: Breadcrumb, items: seq<Item<C>>)

  function BreadcrumbFor(openItem: Option<string>): Breadcrumb
  {
    Breadcrumb(IsSet(openItem), if IsSet(openItem) then Some(openItem.value) else None)
  }

  /** The rows of one group: `checked` is asked of the caller's predicate, nothing is cached. */
  function FacetRows(facets: seq<Facet>, isOptionSelected: Facet -> bool): seq<FacetRow>
  {
    seq(|facets|, k requires 0 <= k < |facets| => FacetRow(facets[k], isOptionSelected(facets[k])))
  }

  /**
   * An accordion section titled `title` with body `body`: an open section is
   * always shown, and while `openItem` is truthy a closed one never is.
   */
  function Section<C>(openItem: Option<string>, title: string, body: Body<C>): (r: Item<C>)
    ensures r.title == title && r.body == body
    ensures r.open ==> r.show
    ensures IsSet(openItem) && !r.open ==> !r.show
  {
    var isOpen := openItem == Some(title);
    Item(title, isOpen, !IsSet(openItem) || isOpen, body)
  }

  function GroupItem<C>(openItem: Option<string>, g: FilterGroup, isOptionSelected: Facet -> bool): Item<C>
  {
    Section(openItem, g.title, FacetList(FacetRows(g.facets, isOptionSelected)))
  }

  /** The whole render tree: breadcrumb, the categories section, then one section per non-empty group. */
  function Compose<C>(filters: seq<FilterGroup>, openItem: Option<string>, tree: seq<C>,
                      isOptionSelected: Facet -> bool): (page: Page<C>)
    ensures |page.items| == 1 + |NonEmptyFilters(filters)|
    ensures page.items[0].title == CATEGORIES_TITLE
  {
    var groups := NonEmptyFilters(filters);
    Page(BreadcrumbFor(openItem),
         [Section(openItem, CATEGORIES_TITLE, DepartmentFilters(tree, |tree| > 0))] +
         seq(|groups|, i requires 0 <= i < |groups| => GroupItem(openItem, groups[i], isOptionSelected)))
  }

  /**
   * Titles are unique among the groups that are rendered, and none of them uses
   * the reserved categories id; dropped empty groups may repeat titles freely.
   */
  predicate UniqueTitles(filters: seq<FilterGroup>)
  {
    var groups := NonEmptyFilters(filters);
    DistinctTitles(groups) && forall g :: g in groups ==> g.title != CATEGORIES_TITLE
  }

  /**
   * The categories section comes first with `isVisible` iff the tree is non-empty;
   * the non-empty groups follow in input order, each with one row per facet.
   */
  lemma ComposeOrder<C>(filters: seq<FilterGroup>, openItem: Option<string>, tree: seq<C>,
                        isOptionSelected: Facet -> bool)
    ensures var items := Compose(filters, openItem, tree, isOptionSelected).items;
      var groups := NonEmptyFilters(filters);
      |items| == 1 + |groups| &&
      items[0].title == CATEGORIES_TITLE &&
      items[0].body == DepartmentFilters(tree, |tree| > 0) &&
      forall i :: 0 <= i < |groups| ==>
        items[i + 1].title == groups[i].title && items[i + 1].body.FacetList? &&
        |items[i + 1].body.rows| == |groups[i].facets|
  {
    var items := Compose(filters, openItem, tree, isOptionSelected).items;
    var groups := NonEmptyFilters(filters);
    forall i | 0 <= i < |groups|
      ensures items[i + 1] == GroupItem(openItem, groups[i], isOptionSelected)
    {
    }
  }

  /** Each checkbox stands for the facet at its position and is checked iff the predicate says so. */
  lemma CheckedIsSelection<C>(filters: seq<FilterGroup>, openItem: Option<string>, tree: seq<C>,
                              isOptionSelected: Facet -> bool, i: nat, k: nat)
    requires i < |NonEmptyFilters(filters)| && k < |NonEmptyFilters(filters)[i].facets|
    ensures var row := Compose(filters, openItem, tree, isOptionSelected).items[i + 1].body.rows[k];
      row.facet == NonEmptyFilters(filters)[i].facets[k] && (row.checked <==> isOptionSelected(row.facet))
  {
  }

  /**
   * A section is open iff `openItem` is its title, and shown iff `openItem` is
   * falsy or the section is open; this holds for the categories section too.
   */
  lemma OpenAndShow<C>(filters: seq<FilterGroup>, openItem: Option<string>, tree: seq<C>,
                       isOptionSelected: Facet -> bool)
    ensures var items := Compose(filters, openItem, tree, isOptionSelected).items;
      forall i :: 0 <= i < |items| ==>
        (items[i].open <==> openItem == Some(items[i].title)) &&
        (items[i].show <==> !IsSet(openItem) || items[i].open)
  {
  }

  /** With everything closed, every section is shown and none is open. */
  lemma ClosedShowsAll<C>(filters: seq<FilterGroup>, tree: seq<C>, isOptionSelected: Facet -> bool)
    ensures var page := Compose(filters, None, tree, isOptionSelected);
      page.breadcrumb == Breadcrumb(false, None) &&
      forall i :: 0 <= i < |page.items| ==> page.items[i].show && !page.items[i].open
  {
  }

  /** The breadcrumb shows a secondary label iff `openItem` is truthy, and that label is `openItem`. */
  lemma BreadcrumbLabel<C>(filters: seq<FilterGroup>, openItem: Option<string>, tree: seq<C>,
                           isOptionSelected: Facet -> bool)
    ensures var b := Compose(filters, openItem, tree, isOptionSelected).breadcrumb;
      (b.secondaryLabel.Some? <==> IsSet(openItem)) &&
      (b.primaryMuted <==> IsSet(openItem)) &&
      (b.secondaryLabel.Some? ==> openItem == Some(b.secondaryLabel.value))
  {
  }

  /** Under unique titles, the sections of one render carry pairwise distinct titles. */
  lemma ItemTitlesDistinct<C>(filters: seq<FilterGroup>, openItem: Option<string>, tree: seq<C>,
                              isOptionSelected: Facet -> bool)
    requires UniqueTitles(filters)
    ensures var items := Compose(filters, openItem, tree, isOptionSelected).items;
      forall i, j :: 0 <= i < j < |items| ==> items[i].title != items[j].title
  {
    var items := Compose(filters, openItem, tree, isOptionSelected).items;
    var groups := NonEmptyFilters(filters);
    forall i, j | 0 <= i < j < |items| ensures items[i].title != items[j].title {
      assert items[j].title == groups[j - 1].title;
      assert groups[j - 1] in groups;
      if i > 0 {
        assert items[i].title == groups[i - 1].title;
      }
    }
  }

  /** With unique titles at most one section is open. */
  lemma AtMostOneOpen<C>(filters: seq<FilterGroup>, openItem: Option<string>, tree: seq<C>,
                         isOptionSelected: Facet -> bool)
    requires UniqueTitles(filters)
    ensures var items := Compose(filters, openItem, tree, isOptionSelected).items;
      forall i, j :: 0 <= i < |items| && 0 <= j < |items| && items[i].open && items[j].open ==> i == j
  {
    ItemTitlesDistinct(filters, openItem, tree, isOptionSelected);
    OpenAndShow(filters, openItem, tree, isOptionSelected);
  }

  /**
   * With a truthy `openItem`, only an open section is shown; with unique titles
   * that is at most one section, so opening a group removes all its siblings.
   * If `openItem` names no rendered section (say its group lost its facets),
   * no section is shown at all: see `StaleIdHidesAll`.
   */
  lemma OpenHidesSiblings<C>(filters: seq<FilterGroup>, openItem: Option<string>, tree: seq<C>,
                             isOptionSelected: Facet -> bool)
    requires UniqueTitles(filters) && IsSet(openItem)
    ensures var items := Compose(filters, openItem, tree, isOptionSelected).items;
      (forall j :: 0 <= j < |items| && items[j].show ==> items[j].open) &&
      forall i, j :: 0 <= i < |items| && 0 <= j < |items| && items[i].open && i != j ==> !items[j].show
  {
    OpenAndShow(filters, openItem, tree, isOptionSelected);
    AtMostOneOpen(filters, openItem, tree, isOptionSelected);
  }

  /**
   * A truthy `openItem` that is no rendered section's title hides every
   * section; only the breadcrumb, labelled with that id, remains.
   */
  lemma StaleIdHidesAll<C>(filters: seq<FilterGroup>, openItem: Option<string>, tree: seq<C>,
                           isOptionSelected: Facet -> bool)
    requires IsSet(openItem)
    requires openItem.value != CATEGORIES_TITLE
    requires forall g :: g in NonEmptyFilters(filters) ==> g.title != openItem.value
    ensures var page := Compose(filters, openItem, tree, isOptionSelected);
      page.breadcrumb.secondaryLabel == openItem &&
      forall j :: 0 <= j < |page.items| ==> !page.items[j].show
  {
    var groups := NonEmptyFilters(filters);
    var items := Compose(filters, openItem, tree, isOptionSelected).items;
    forall j | 0 <= j < |items| ensures !items[j].show {
      if j > 0 {
        assert items[j] == GroupItem(openItem, groups[j - 1], isOptionSelected);
        assert groups[j - 1] in groups;
      }
    }
  }

  /**
   * The empty-string id: `===` makes every section titled "" open, while
   * truthiness makes the render treat the accordion as closed, so every
   * section stays shown and the breadcrumb shows no secondary label.
   */
  lemma EmptyIdOpensWithoutHiding<C>(filters: seq<FilterGroup>, tree: seq<C>, isOptionSelected: Facet -> bool)
    ensures var page := Compose(filters, Some(""), tree, isOptionSelected);
      page.breadcrumb.secondaryLabel == None &&
      forall i :: 0 <= i < |page.items| ==> page.items[i].show && (page.items[i].open <==> page.items[i].title == "")
  {
    OpenAndShow(filters, Some(""), tree, isOptionSelected);
  }

  /**
   * Facets are told apart by the whole facet, not by name: two groups may each
   * hold a facet named "Yes" and only one of them be checked.
   */
  lemma SameNameFacetsCheckedApart()
    ensures var yesWaterproof := Facet("Yes", map["filter" := "waterproof"]);
      var yesWireless := Facet("Yes", map["filter" := "wireless"]);
      var filters := [FilterGroup("waterproof", [yesWaterproof]), FilterGroup("wireless", [yesWireless])];
      var tree: seq<int> := [];
      var page := Compose(filters, None, tree, (f: Facet) => f == yesWaterproof);
      |page.items| == 3 && page.items[1].body.rows[0].checked && !page.items[2].body.rows[0].checked
  {
    var yesWaterproof := Facet("Yes", map["filter" := "waterproof"]);
    var yesWireless := Facet("Yes", map["filter" := "wireless"]);
    var filters := [FilterGroup("waterproof", [yesWaterproof]), FilterGroup("wireless", [yesWireless])];
    assert yesWaterproof != yesWireless by {
      assert yesWireless.fields["filter"] == "wireless";
    }
    NonEmptyFiltersOfNonEmpty(filters);
  }

  /**
   * Checked flags depend only on what the predicate says about the facets on the
   * page: two predicates that agree there give the same page, whatever is open.
   */
  lemma SelectionOnlyFromPredicate<C>(filters: seq<FilterGroup>, openItem: Option<string>, tree: seq<C>,
                                      p: Facet -> bool, q: Facet -> bool)
    requires forall g, f :: g in filters && f in g.facets ==> p(f) == q(f)
    ensures Compose(filters, openItem, tree, p) == Compose(filters, openItem, tree, q)
  {
    var groups := NonEmptyFilters(filters);
    forall i | 0 <= i < |groups|
      ensures GroupItem<C>(openItem, groups[i], p) == GroupItem<C>(openItem, groups[i], q)
    {
      assert groups[i] in filters;
      assert FacetRows(groups[i].facets, p) == FacetRows(groups[i].facets, q);
    }
  }

  /** Whatever is open, the bodies of the sections (and so every checked flag) are the same. */
  lemma BodiesIndependentOfOpenItem<C>(filters: seq<FilterGroup>, s: Option<string>, t: Option<string>,
                                       tree: seq<C>, isOptionSelected: Facet -> bool)
    ensures var a := Compose(filters, s, tree, isOptionSelected).items;
      var b := Compose(filters, t, tree, isOptionSelected).items;
      |a| == |b| && forall i :: 0 <= i < |a| ==> a[i].title == b[i].title && a[i].body == b[i].body
  {
  }

  /**
   * Clicking a section's header: if it was the open one, the next render has
   * everything closed and shown; otherwise, when its title is non-empty and the
   * rendered titles are unique, that section is open and shown and all others
   * are hidden. Duplicate titles would open every section sharing the title.
   */
  lemma HeaderClick<C>(filters: seq<FilterGroup>, openItem: Option<string>, tree: seq<C>,
                       isOptionSelected: Facet -> bool, i: nat)
    requires i < |Compose(filters, openItem, tree, isOptionSelected).items|
    ensures var title := Compose(filters, openItem, tree, isOptionSelected).items[i].title;
      var next := Compose(filters, Step(openItem, Toggle(title)), tree, isOptionSelected).items;
      |next| == |Compose(filters, openItem, tree, isOptionSelected).items| &&
      (openItem == Some(title) ==> forall j :: 0 <= j < |next| ==> next[j].show && !next[j].open) &&
      (UniqueTitles(filters) && openItem != Some(title) && title != "" ==>
         next[i].open && next[i].show && forall j :: 0 <= j < |next| && j != i ==> !next[j].show)
  {
    var title := Compose(filters, openItem, tree, isOptionSelected).items[i].title;
    var s' := Step(openItem, Toggle(title));
    BodiesIndependentOfOpenItem(filters, openItem, s', tree, isOptionSelected);
    OpenAndShow(filters, s', tree, isOptionSelected);
    if UniqueTitles(filters) && openItem != Some(title) && title != "" {
      OpenHidesSiblings(filters, s', tree, isOptionSelected);
    }
  }

  /**
   * The worked example: "color" has no facets and is dropped; clicking "brand"
   * opens it alone and labels the breadcrumb with it; Enter closes it again and
   * every section is shown collapsed.
   */
  lemma BrandScenario()
    ensures var filters := [FilterGroup("brand", [Facet("Nike", map[]), Facet("Puma", map[])]), FilterGroup("color", [])];
      var selected := (f: Facet) => false;
      var tree: seq<int> := [];
      var afterClick := Compose(filters, Step(None, Toggle("brand")), tree, selected);
      var afterEnter := Compose(filters, Run(None, [Toggle("brand"), KeyDown(ENTER)]), tree, selected);
      NonEmptyFilters(filters) == [FilterGroup("brand", [Facet("Nike", map[]), Facet("Puma", map[])])] &&
      |afterClick.items| == 2 && afterClick.breadcrumb.secondaryLabel == Some("brand") &&
      afterClick.items[1].open && afterClick.items[1].show && !afterClick.items[0].show &&
      !afterClick.items[0].body.isVisible &&
      afterEnter.breadcrumb == Breadcrumb(false, None) &&
      afterEnter.items[0].show && afterEnter.items[1].show && !afterEnter.items[0].open && !afterEnter.items[1].open
  {
    var filters := [FilterGroup("brand", [Facet("Nike", map[]), Facet("Puma", map[])]), FilterGroup("color", [])];
    assert NonEmptyFilters(filters[1..]) == [];
    var events := [Toggle("brand"), KeyDown(ENTER)];
    assert events[1..] == [KeyDown(ENTER)];
    assert Run(Some("brand"), [KeyDown(ENTER)]) == Step(Some("brand"), KeyDown(ENTER));
  }
}
