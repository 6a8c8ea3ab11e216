/**
 * The marketplace route: listings are stored with their price in cents,
 * created active and not featured, and only active listings are listed.
 */
module MarketplaceRoute {
  import opened Platform
  import Seqs

  /**
   * A row of `marketplaceListings`: the fields the route and the page act on.
   * `price` is in cents; the remaining descriptive columns are stored as sent.
   */
  datatype Listing = Listing(
    id: int,
    sellerId: int,
    title: string,
    description: string,
    category: string,
    price: Option<int>,
    priceType: string,
    isActive: bool,
    featured: bool)

  /** `price ? price * 100 : null`: a missing or zero euro price is stored as null. */
  function ToCents(price: Option<int>): (cents: Option<int>)
    ensures cents.None? <==> price.None? || price.value == 0
    ensures cents.Some? ==> cents.value == price.value * 100 && cents.value != 0
  {
    if price.Some? && price.value != 0 then Some(price.value * 100) else None
  }

  /** Distinct non-zero euro prices are stored as distinct amounts of cents. */
  lemma ToCentsInjective(p: int, q: int)
    requires p != 0 && q != 0
    requires ToCents(Some(p)) == ToCents(Some(q))
    ensures p == q
  {
  }

  /** `GET /api/marketplace`: the active listings, in table order. */
  function ActiveListings(listings: seq<Listing>): (r: seq<Listing>)
    ensures forall i :: 0 <= i < |r| ==> r[i] in listings && r[i].isActive
    ensures forall i :: 0 <= i < |listings| && listings[i].isActive ==> listings[i] in r
    ensures Seqs.IsSubsequence(r, listings)
  {
    Seqs.FilterIsSubsequence(listings, (l: Listing) => l.isActive);
    Seqs.Filter(listings, (l: Listing) => l.isActive)
  }

  /** The `marketplaceListings` table and its id sequence. */
  class ListingTable {
    var listings: seq<Listing>
    var nextId: int

    constructor (initial: seq<Listing>, nextId: int)
      ensures listings == initial && this.nextId == nextId
    {
      listings := initial;
      this.nextId := nextId;
    }

    /**
     * `POST /api/marketplace`: 401 without a signed-in member, 404 without a
     * profile, otherwise one active, unfeatured listing sold by the member,
     * with the euro price converted to cents.
     */
    method Post(users: seq<User>, subject: Option<string>, title: string, description: string,
                category: string, price: Option<int>, priceType: string)
      returns (status: Outcome, created: Option<Listing>)
      modifies this
      ensures subject.None? ==> status == Unauthorized
      ensures subject.Some? && CurrentProfile(users, subject).None? ==> status == NotFound
      ensures status == Ok <==> CurrentProfile(users, subject).Some?
      ensures status != Ok ==> created.None? && unchanged(this)
      ensures status == Ok ==>
        var l := Listing(old(nextId), CurrentProfile(users, subject).value.id, title, description,
                         category, ToCents(price), priceType, true, false);
        && created == Some(l)
        && listings == old(listings) + [l]
        && nextId == old(nextId) + 1
      ensures status == Ok ==> ActiveListings(listings) == ActiveListings(old(listings)) + [created.value]
    {
      created := None;
      if subject.None? {
        return Unauthorized, created;
      }
      var profile := FindByClerkId(users, subject.value);
      if profile.None? {
        return NotFound, created;
      }
      var l := Listing(nextId, profile.value.id, title, description, category, ToCents(price), priceType,
                       true, false);
      Seqs.FilterConcat(listings, [l], (x: Listing) => x.isActive);
      listings := listings + [l];
      nextId := nextId + 1;
      status, created := Ok, Some(l);
    }
  }
}

/**
 * The marketplace page: the search and category filter over the fetched
 * listings, and how a stored price is displayed.
 */
module MarketplacePage {
  import opened Platform
  import opened Text
  import Seqs
  import opened MarketplaceRoute

  /** The `filteredListings` predicate. */
  predicate Shown(listing: Listing, category: string, search: string)
  {
    (category == "all" || listing.category == category)
    && (Contains(Lower(listing.title), Lower(search)) || Contains(Lower(listing.description), Lower(search)))
    && listing.isActive
  }

  /** `listings.filter(...)` with the selected category and search term. */
  function FilteredListings(listings: seq<Listing>, category: string, search: string): (r: seq<Listing>)
    ensures forall i :: 0 <= i < |r| ==> r[i] in listings && Shown(r[i], category, search)
    ensures forall i :: 0 <= i < |listings| && Shown(listings[i], category, search) ==> listings[i] in r
    ensures Seqs.IsSubsequence(r, listings)
  {
    Seqs.FilterIsSubsequence(listings, (l: Listing) => Shown(l, category, search));
    Seqs.Filter(listings, (l: Listing) => Shown(l, category, search))
  }

  /** The page's initial state (category `all`, empty search) shows exactly the active listings. */
  lemma InitialFilterShowsActive(listings: seq<Listing>)
    ensures FilteredListings(listings, "all", "") == ActiveListings(listings)
  {
    forall i | 0 <= i < |listings|
      ensures Shown(listings[i], "all", "") == listings[i].isActive
    {
      ContainsEmpty(Lower(listings[i].title));
    }
    Seqs.FilterCongruent(listings, (l: Listing) => Shown(l, "all", ""), (l: Listing) => l.isActive);
  }

  /** Lower-casing twice is lower-casing once. */
  lemma LowerIdempotent(s: string)
    ensures Lower(Lower(s)) == Lower(s)
  {
  }

  /** The search ignores the case of its term: an upper-case letter matches like its lower-case one. */
  lemma SearchIgnoresCase(listings: seq<Listing>, category: string, search: string)
    ensures FilteredListings(listings, category, search) == FilteredListings(listings, category, Lower(search))
  {
    LowerIdempotent(search);
    Seqs.FilterCongruent(listings, (l: Listing) => Shown(l, category, search),
                         (l: Listing) => Shown(l, category, Lower(search)));
  }

  /** What the card shows as the price. */
  datatype PriceDisplay = Negotiable | Amount(euros: real, suffix: string)

  /** The text shown for a listing without a price. */
  const NegotiableText := "Prix à négocier"

  /** The unit suffix for a price type; `fixed` and unknown types show a bare euro sign. */
  function Suffix(priceType: string): (suffix: string)
    ensures priceType == "hourly" ==> suffix == "€/heure"
    ensures priceType == "daily" ==> suffix == "€/jour"
    ensures priceType != "hourly" && priceType != "daily" ==> suffix == "€"
  {
    match priceType
    case "hourly" => "€/heure"
    case "daily" => "€/jour"
    case "fixed" => "€"
    case _ => "€"
  }

  /** `getPriceDisplay`: a null or zero price is negotiable, otherwise cents / 100 with the unit. */
  function DisplayPrice(listing: Listing): (d: PriceDisplay)
    ensures d.Negotiable? <==> listing.price.None? || listing.price.value == 0
    ensures d.Amount? ==> d.euros * 100.0 == listing.price.value as real && d.euros != 0.0
  {
    if listing.price.None? || listing.price.value == 0 then Negotiable
    else Amount(listing.price.value as real / 100.0, Suffix(listing.priceType))
  }

  /**
   * Round trip through the route and the page: a listing created with a
   * non-zero integer euro price `p` is displayed as `p` euros, and one
   * created without a price, or with price 0, is displayed as negotiable.
   */
  lemma PriceRoundTrip(price: Option<int>, l: Listing)
    requires l.price == ToCents(price)
    ensures price.Some? && price.value != 0 ==>
      DisplayPrice(l) == Amount(price.value as real, Suffix(l.priceType))
    ensures price.None? || price.value == 0 ==> DisplayPrice(l) == Negotiable
  {
  }
}
