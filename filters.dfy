/**
 * Filter groups as the accordion receives them, and the normaliser that drops
 * the groups with no facets (react/components/AccordionFilterContainer.js:41).
 */
module Filters {

  /**
   * A selectable filter value. Rows are keyed and labelled by its name; the
   * facet's other fields are opaque to the accordion, but the whole facet is
   * what the selection predicate and the check callback receive.
   */
  datatype Facet = Facet(name: string, fields: map<string, string>)

  /** A named group of facets. The title is both the label key and the accordion id. */
  datatype FilterGroup = FilterGroup(title: string, facets: seq<Facet>)

  predicate NonEmpty(g: FilterGroup)
  {
    |g.facets| > 0
  }

  /** The groups that have at least one facet, in their input order. */
  function NonEmptyFilters(filters: seq<FilterGroup>): (r: seq<FilterGroup>)
    ensures |r| <= |filters|
    ensures forall i :: 0 <= i < |r| ==> NonEmpty(r[i])
    ensures forall g :: g in r <==> g in filters && NonEmpty(g)
  {
    if filters == [] then []
    else if NonEmpty(filters[0]) then [filters[0]] + NonEmptyFilters(filters[1..])
    else NonEmptyFilters(filters[1..])
  }

  /** `a` is obtained from `b` by deleting elements, keeping the order of the rest. */
  predicate IsSubsequence<T(==)>(a: seq<T>, b: seq<T>)
    decreases |b|
  {
    if a == [] then true
    else if b == [] then false
    else if a[0] == b[0] then IsSubsequence(a[1..], b[1..])
    else IsSubsequence(a, b[1..])
  }

  /** No two groups share a title. */
  predicate DistinctTitles(gs: seq<FilterGroup>)
  {
    forall i, j :: 0 <= i < j < |gs| ==> gs[i].title != gs[j].title
  }

  /** The normaliser keeps the input order: its result is a subsequence of the input. */
  lemma {:induction false} NonEmptyFiltersIsSubsequence(filters: seq<FilterGroup>)
    ensures IsSubsequence(NonEmptyFilters(filters), filters)
  {
    if filters != [] {
      NonEmptyFiltersIsSubsequence(filters[1..]);
      var r := NonEmptyFilters(filters);
      if !NonEmpty(filters[0]) && r != [] {
        assert NonEmpty(r[0]);
        assert r[0] != filters[0];
      }
    }
  }

  /**
   * Every non-empty group is kept as often as it occurs, and no empty group is:
   * together with the subsequence lemma this pins the result down completely.
   */
  lemma {:induction false} NonEmptyFiltersMultiplicity(filters: seq<FilterGroup>, g: FilterGroup)
    ensures multiset(NonEmptyFilters(filters))[g] == if NonEmpty(g) then multiset(filters)[g] else 0
  {
    if filters != [] {
      NonEmptyFiltersMultiplicity(filters[1..], g);
      assert filters == [filters[0]] + filters[1..];
      assert multiset(filters) == multiset([filters[0]]) + multiset(filters[1..]);
    }
  }

  /** A list that has no empty group is left as it is. */
  lemma {:induction false} NonEmptyFiltersOfNonEmpty(filters: seq<FilterGroup>)
    requires forall i :: 0 <= i < |filters| ==> NonEmpty(filters[i])
    ensures NonEmptyFilters(filters) == filters
  {
    if filters != [] {
      NonEmptyFiltersOfNonEmpty(filters[1..]);
    }
  }

  /** Normalising twice is normalising once. */
  lemma NonEmptyFiltersIdempotent(filters: seq<FilterGroup>)
    ensures NonEmptyFilters(NonEmptyFilters(filters)) == NonEmptyFilters(filters)
  {
    NonEmptyFiltersOfNonEmpty(NonEmptyFilters(filters));
  }

  /** Dropping groups cannot make two titles collide. */
  lemma {:induction false} NonEmptyFiltersKeepsDistinctTitles(filters: seq<FilterGroup>)
    requires DistinctTitles(filters)
    ensures DistinctTitles(NonEmptyFilters(filters))
  {
    if filters != [] {
      var head, rest := filters[0], filters[1..];
      assert DistinctTitles(rest) by {
        forall i, j | 0 <= i < j < |rest| ensures rest[i].title != rest[j].title {
          assert rest[i] == filters[i + 1] && rest[j] == filters[j + 1];
        }
      }
      NonEmptyFiltersKeepsDistinctTitles(rest);
      if NonEmpty(head) {
        var kept := NonEmptyFilters(rest);
        forall g | g in kept ensures g.title != head.title {
          var k :| 0 <= k < |rest| && rest[k] == g;
          assert filters[k + 1] == g;
        }
        DistinctTitlesCons(head, kept);
        assert NonEmptyFilters(filters) == [head] + kept;
      }
    }
  }

  lemma DistinctTitlesCons(head: FilterGroup, tail: seq<FilterGroup>)
    requires DistinctTitles(tail)
    requires forall g :: g in tail ==> g.title != head.title
    ensures DistinctTitles([head] + tail)
  {
    var r := [head] + tail;
    forall i, j | 0 <= i < j < |r| ensures r[i].title != r[j].title {
      assert r[j] == tail[j - 1];
      if i > 0 {
        assert r[i] == tail[i - 1];
      }
    }
  }
}
