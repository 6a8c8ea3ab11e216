/**
 * The resources page: the category and search filter over the fetched
 * resources, and the "no resource found" message.
 */
module ResourcesPage {
  import opened Text
  import Seqs

  /** A resource: the fields the filter reads. */
  datatype Resource = Resource(id: int, title: string, description: string, category: string)

  /** The category that selects every resource. */
  const AllCategories := "Tous"

  /** The `filteredResources` predicate. */
  predicate Kept(r: Resource, category: string, search: string)
  {
    (category == AllCategories || r.category == category)
    && (Contains(Lower(r.title), Lower(search)) || Contains(Lower(r.description), Lower(search)))
  }

  function FilteredResources(resources: seq<Resource>, category: string, search: string): (r: seq<Resource>)
    ensures forall i :: 0 <= i < |r| ==> r[i] in resources && Kept(r[i], category, search)
    ensures forall i :: 0 <= i < |resources| && Kept(resources[i], category, search) ==> resources[i] in r
    ensures Seqs.IsSubsequence(r, resources)
  {
    Seqs.FilterIsSubsequence(resources, (x: Resource) => Kept(x, category, search));
    Seqs.Filter(resources, (x: Resource) => Kept(x, category, search))
  }

  /** `filteredResources.length === 0`. */
  predicate ShowsEmptyMessage(resources: seq<Resource>, category: string, search: string)
  {
    |FilteredResources(resources, category, search)| == 0
  }

  /** The message shows exactly when no resource passes the filter. */
  lemma EmptyMessageIff(resources: seq<Resource>, category: string, search: string)
    ensures ShowsEmptyMessage(resources, category, search)
      <==> forall i :: 0 <= i < |resources| ==> !Kept(resources[i], category, search)
  {
    var r := FilteredResources(resources, category, search);
    if |r| != 0 {
      assert r[0] in resources;
    }
  }

  /** The initial state (`Tous`, empty search) keeps every resource in order. */
  lemma InitialStateKeepsAll(resources: seq<Resource>)
    ensures FilteredResources(resources, AllCategories, "") == resources
  {
    forall i | 0 <= i < |resources|
      ensures Kept(resources[i], AllCategories, "")
    {
      ContainsEmpty(Lower(resources[i].title));
    }
    Seqs.FilterKeepsAll(resources, (x: Resource) => Kept(x, AllCategories, ""));
  }
}
