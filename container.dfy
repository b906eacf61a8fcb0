/**
 * The component itself: `openItem` is the state it owns, updated in place by
 * its three handlers (react/components/AccordionFilterContainer.js:15-39, 62),
 * and every render is the projection `View.Compose` of the current state.
 */
module Container {
  import opened Options
  import opened Filters
  import opened OpenState
  import opened View

  class AccordionFilterContainer {
    /** The id of the expanded group, or `None` (`null`) when all are collapsed. */
    var openItem: Option<string>

    /** `useState(null)`: mounted with every group collapsed. */
    constructor ()
      ensures openItem == None
    {
      openItem := None;
    }

    /** `handleOpen(id)`: a click on the header of group `id` toggles it. */
    method HandleOpen(id: string)
      modifies this
      ensures openItem == Step(old(openItem), Toggle(id))
    {
      if openItem == Some(id) {
        openItem := None;
      } else {
        openItem := Some(id);
      }
    }

    /** `handleKeyDown`: Enter on the breadcrumb collapses everything; other keys are ignored. */
    method HandleKeyDown(key: string)
      modifies this
      ensures openItem == Step(old(openItem), KeyDown(key))
    {
      if key == ENTER {
        openItem := None;
      }
    }

    /** The breadcrumb root's `onClick`: collapses everything, whatever was open. */
    method HandleBreadcrumbClick()
      modifies this
      ensures openItem == None
    {
      openItem := None;
    }

    /** What the component renders for the given props in its current state. */
    function Render<C>(filters: seq<FilterGroup>, tree: seq<C>, isOptionSelected: Facet -> bool): (page: Page<C>)
      reads this
      ensures |page.items| == 1 + |NonEmptyFilters(filters)|
      ensures page.breadcrumb.secondaryLabel.Some? <==> IsSet(openItem)
      ensures forall i :: 0 <= i < |page.items| ==>
        (page.items[i].open <==> openItem == Some(page.items[i].title)) &&
        (page.items[i].show <==> !IsSet(openItem) || page.items[i].open)
    {
      OpenAndShow(filters, openItem, tree, isOptionSelected);
      BreadcrumbLabel(filters, openItem, tree, isOptionSelected);
      Compose(filters, openItem, tree, isOptionSelected)
    }
  }
}
