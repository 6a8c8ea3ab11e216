/**
 * The integrations page: the funding and festival tabs filtered by the
 * selected category and region.
 */
module IntegrationsPage {
  import opened Platform
  import opened Text
  import Seqs

  /** A funding opportunity: the fields the filter reads (both nullable). */
  datatype Funding = Funding(id: int, title: string, category: Option<string>, region: Option<string>)

  /** A festival: the field the filter reads (nullable). */
  datatype Festival = Festival(id: int, name: string, location: Option<string>)

  /** The page's selections; both start at `all`. */
  datatype Selection = Selection(category: string, region: string)

  /** The `filteredFunding` predicate: a null column never equals a selected value. */
  predicate FundingShown(f: Funding, sel: Selection)
  {
    (sel.category == "all" || f.category == Some(sel.category))
    && (sel.region == "all" || f.region == Some(sel.region))
  }

  /** The `filteredFestivals` predicate: the region as a case-insensitive part of the location. */
  predicate FestivalShown(e: Festival, sel: Selection)
  {
    sel.region == "all" || (e.location.Some? && Contains(Lower(e.location.value), Lower(sel.region)))
  }

  function FilteredFunding(items: seq<Funding>, sel: Selection): (r: seq<Funding>)
    ensures forall i :: 0 <= i < |r| ==> r[i] in items && FundingShown(r[i], sel)
    ensures forall i :: 0 <= i < |items| && FundingShown(items[i], sel) ==> items[i] in r
    ensures Seqs.IsSubsequence(r, items)
  {
    Seqs.FilterIsSubsequence(items, (f: Funding) => FundingShown(f, sel));
    Seqs.Filter(items, (f: Funding) => FundingShown(f, sel))
  }

  function FilteredFestivals(items: seq<Festival>, sel: Selection): (r: seq<Festival>)
    ensures forall i :: 0 <= i < |r| ==> r[i] in items && FestivalShown(r[i], sel)
    ensures forall i :: 0 <= i < |items| && FestivalShown(items[i], sel) ==> items[i] in r
    ensures Seqs.IsSubsequence(r, items)
  {
    Seqs.FilterIsSubsequence(items, (e: Festival) => FestivalShown(e, sel));
    Seqs.Filter(items, (e: Festival) => FestivalShown(e, sel))
  }

  /** A funding item with no category (or region) disappears as soon as one is selected. */
  lemma NullFundingColumnsExcluded(f: Funding, sel: Selection)
    ensures f.category.None? && sel.category != "all" ==> !FundingShown(f, sel)
    ensures f.region.None? && sel.region != "all" ==> !FundingShown(f, sel)
  {
  }

  /** A festival without a location is shown only while every region is selected. */
  lemma NullLocationExcluded(e: Festival, sel: Selection)
    requires e.location.None?
    ensures FestivalShown(e, sel) <==> sel.region == "all"
  {
  }

  /** The category selection never changes the festival tab. */
  lemma {:induction false} FestivalsIgnoreCategory(items: seq<Festival>, sel: Selection, category: string)
    ensures FilteredFestivals(items, sel) == FilteredFestivals(items, sel.(category := category))
  {
    var other := sel.(category := category);
    assert other.region == sel.region;
    forall i | 0 <= i < |items|
      ensures FestivalShown(items[i], sel) == FestivalShown(items[i], other)
    {
    }
    Seqs.FilterCongruent(items, (e: Festival) => FestivalShown(e, sel),
                         (e: Festival) => FestivalShown(e, other));
  }

  /** The initial selection (`all`, `all`) shows both lists whole, in order. */
  lemma AllAllKeepsEverything(funding: seq<Funding>, festivals: seq<Festival>)
    ensures FilteredFunding(funding, Selection("all", "all")) == funding
    ensures FilteredFestivals(festivals, Selection("all", "all")) == festivals
  {
    Seqs.FilterKeepsAll(funding, (f: Funding) => FundingShown(f, Selection("all", "all")));
    Seqs.FilterKeepsAll(festivals, (e: Festival) => FestivalShown(e, Selection("all", "all")));
  }
}
