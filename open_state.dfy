/**
 * The accordion's one piece of owned state, `openItem`, and the events that
 * change it (react/components/AccordionFilterContainer.js:23-39, 62).
 */
module OpenState {
  import opened Options

  /** The key whose press on the breadcrumb clears the open group. */
  const ENTER := "Enter"

  /** What reaches a handler of the component. */
  datatype Event =
    | Toggle(id: string)       // a group header was clicked: `handleOpen(id)`
    | KeyDown(key: string)     // a key was pressed on the breadcrumb: `handleKeyDown`
    | BreadcrumbClick          // the breadcrumb root was clicked

  /**
   * The value `setOpenItem` leaves behind after one event. A group can only
   * become open through a click on its own header.
   */
  function Step(openItem: Option<string>, e: Event): (r: Option<string>)
    ensures r.Some? ==> r == openItem || e == Toggle(r.value)
  {
    match e
    case Toggle(id) => if openItem == Some(id) then None else Some(id)
    case KeyDown(key) => if key == ENTER then None else openItem
    case BreadcrumbClick => None
  }

  /**
   * The state after a sequence of events, each handled after the previous
   * re-render: an open group was either open at the start or clicked on.
   */
  function Run(openItem: Option<string>, events: seq<Event>): (r: Option<string>)
    ensures r.Some? ==> r == openItem || Toggle(r.value) in events
    decreases |events|
  {
    if events == [] then openItem else Run(Step(openItem, events[0]), events[1..])
  }

  /** Whether an event can change the state at all: every event but a key other than Enter. */
  predicate Effective(e: Event)
  {
    !(e.KeyDown? && e.key != ENTER)
  }

  /** The events of a sequence that can change the state, in order. */
  function EffectiveEvents(events: seq<Event>): (r: seq<Event>)
    ensures forall i :: 0 <= i < |r| ==> Effective(r[i])
  {
    if events == [] then []
    else if Effective(events[0]) then [events[0]] + EffectiveEvents(events[1..])
    else EffectiveEvents(events[1..])
  }

  /** Clicking the header of the open group closes it; clicking any other opens that one instead. */
  lemma ToggleTransition(openItem: Option<string>, id: string)
    ensures openItem == Some(id) ==> Step(openItem, Toggle(id)) == None
    ensures openItem != Some(id) ==> Step(openItem, Toggle(id)) == Some(id)
  {
  }

  /** Enter on the breadcrumb closes everything; any other key changes nothing. */
  lemma KeyDownTransition(openItem: Option<string>, key: string)
    ensures key == ENTER ==> Step(openItem, KeyDown(key)) == None
    ensures key != ENTER ==> Step(openItem, KeyDown(key)) == openItem
  {
  }

  /** Clicking the breadcrumb closes everything, and from the closed state it is a no-op. */
  lemma BreadcrumbDismisses(openItem: Option<string>)
    ensures Step(openItem, BreadcrumbClick) == None
    ensures Run(openItem, [BreadcrumbClick, BreadcrumbClick]) == Run(openItem, [BreadcrumbClick])
  {
  }

  /** Toggling one id twice closes the accordion unless that id was already open. */
  lemma ToggleTwice(openItem: Option<string>, id: string)
    ensures Run(openItem, [Toggle(id), Toggle(id)]) == if openItem == Some(id) then openItem else None
  {
    var mid := Step(openItem, Toggle(id));
    assert [Toggle(id), Toggle(id)][1..] == [Toggle(id)];
    assert Run(mid, [Toggle(id)]) == Step(mid, Toggle(id));
  }

  /** Toggling `a` then a different `b` leaves exactly `b` open, from any state. */
  lemma ToggleThenOther(openItem: Option<string>, a: string, b: string)
    requires a != b
    ensures Run(openItem, [Toggle(a), Toggle(b)]) == Some(b)
  {
    var mid := Step(openItem, Toggle(a));
    assert [Toggle(a), Toggle(b)][1..] == [Toggle(b)];
    assert Run(mid, [Toggle(b)]) == Step(mid, Toggle(b));
  }

  /** Handling `a` and then `b` is handling `a + b`. */
  lemma {:induction false} RunAppend(openItem: Option<string>, a: seq<Event>, b: seq<Event>)
    ensures Run(openItem, a + b) == Run(Run(openItem, a), b)
    decreases |a|
  {
    if a == [] {
      assert a + b == b;
    } else {
      assert (a + b)[1..] == a[1..] + b;
      RunAppend(Step(openItem, a[0]), a[1..], b);
    }
  }

  /** Keys other than Enter can be dropped from any event sequence without changing the outcome. */
  lemma {:induction false} RunIgnoresOtherKeys(openItem: Option<string>, events: seq<Event>)
    ensures Run(openItem, events) == Run(openItem, EffectiveEvents(events))
    decreases |events|
  {
    if events != [] {
      RunIgnoresOtherKeys(Step(openItem, events[0]), events[1..]);
      if Effective(events[0]) {
        var r := EffectiveEvents(events);
        assert r[0] == events[0] && r[1..] == EffectiveEvents(events[1..]);
      } else {
        RunIgnoresOtherKeys(openItem, events[1..]);
      }
    }
  }

  /**
   * The open id is always the most recent effective event, which was a header
   * click on that id; with no effective event the state is what it was.
   */
  lemma OpenIsLastToggle(openItem: Option<string>, events: seq<Event>)
    ensures EffectiveEvents(events) == [] ==> Run(openItem, events) == openItem
    ensures Run(openItem, events).Some? && EffectiveEvents(events) != [] ==>
      EffectiveEvents(events)[|EffectiveEvents(events)| - 1] == Toggle(Run(openItem, events).value)
  {
    RunIgnoresOtherKeys(openItem, events);
    var eff := EffectiveEvents(events);
    if eff != [] {
      var init, last := eff[..|eff| - 1], eff[|eff| - 1];
      assert eff == init + [last];
      RunAppend(openItem, init, [last]);
      assert Effective(last);
    }
  }

  /** Starting closed, whatever is open was toggled by some event of the sequence. */
  lemma OpenWasToggled(events: seq<Event>)
    ensures Run(None, events).Some? ==> Toggle(Run(None, events).value) in events
  {
    // This is the contract of `Run` taken from the mounted state.
  }
}
