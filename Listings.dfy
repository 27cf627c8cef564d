/** The listing routes of server/server.js: the category/search filter of
    GET /api/listings and the record POST /api/listings appends. listings.json
    is the sequence `listings`, passed in and returned. */
module Listings {
  import opened Wrappers
  import opened Seqs
  import opened Text
  import Accounts

  const ServerErrorMessage := "Server error"

  /** A record of listings.json. `price` and `sellerRating` are only copied. */
  datatype Listing = Listing(
    id: int, title: string, description: string, price: real, category: string,
    kind: string, urgency: string, location: string, availability: string,
    images: seq<string>, sellerId: int, sellerName: string, sellerRating: real,
    sellerAvatar: string, status: string, postedDate: string)

  /** `category && category !== 'All'`: a missing or empty category is falsy. */
  predicate CategoryFilterOn(category: Option<string>) {
    category.Some? && category.value != "" && category.value != "All"
  }

  /** `if (search)`: a missing or empty term is falsy. */
  predicate SearchFilterOn(search: Option<string>) {
    search.Some? && search.value != ""
  }

  /** The search match: the lowercased term occurs in the lowercased title or
      description. */
  predicate MatchesTerm(l: Listing, termLower: string) {
    Includes(Lower(l.title), termLower) || Includes(Lower(l.description), termLower)
  }

  /** What the route keeps: the category (when filtering by one) and the search
      term (when one is given). */
  predicate Selected(l: Listing, category: Option<string>, search: Option<string>) {
    && (CategoryFilterOn(category) ==> l.category == category.value)
    && (SearchFilterOn(search) ==> MatchesTerm(l, Lower(search.value)))
  }

  /** The category pass of the route. */
  function ByCategory(listings: seq<Listing>, category: Option<string>): seq<Listing> {
    if CategoryFilterOn(category)
    then Filter(listings, InCategory(category.value))
    else listings
  }

  /** The search pass of the route. */
  function BySearch(listings: seq<Listing>, search: Option<string>): seq<Listing> {
    if SearchFilterOn(search)
    then Filter(listings, Matching(Lower(search.value)))
    else listings
  }

  function InCategory(category: string): Listing -> bool {
    (l: Listing) => l.category == category
  }

  function Matching(termLower: string): Listing -> bool {
    (l: Listing) => MatchesTerm(l, termLower)
  }

  function SelectedBy(category: Option<string>, search: Option<string>): Listing -> bool {
    (l: Listing) => Selected(l, category, search)
  }

  /** GET /api/listings?category=…&search=…: an order-preserving subsequence of
      the listings that holds every selected listing as often as it occurs and
      nothing else. */
  function FilterListings(listings: seq<Listing>, category: Option<string>, search: Option<string>)
    : (r: seq<Listing>)
    ensures IsSubsequence(r, listings)
    ensures forall l :: l in r <==> l in listings && Selected(l, category, search)
    ensures forall l :: multiset(r)[l] == if Selected(l, category, search) then multiset(listings)[l] else 0
  {
    TwoPassesSelect(listings, category, search);
    FilterSpec(listings, SelectedBy(category, search));
    BySearch(ByCategory(listings, category), search)
  }

  /** The two passes together keep exactly the selected listings. */
  lemma TwoPassesSelect(listings: seq<Listing>, category: Option<string>, search: Option<string>)
    ensures BySearch(ByCategory(listings, category), search) == Filter(listings, SelectedBy(category, search))
  {
    var sel := SelectedBy(category, search);
    if CategoryFilterOn(category) && SearchFilterOn(search) {
      FilterFilter(listings, InCategory(category.value), Matching(Lower(search.value)), sel);
    } else if CategoryFilterOn(category) {
      FilterCongruent(listings, InCategory(category.value), sel);
    } else if SearchFilterOn(search) {
      FilterCongruent(listings, Matching(Lower(search.value)), sel);
    } else {
      FilterKeepsAll(listings, sel);
    }
  }

  /** A filter whose predicate holds everywhere keeps everything. */
  lemma {:induction false} FilterKeepsAll(s: seq<Listing>, p: Listing -> bool)
    requires forall l :: p(l)
    ensures Filter(s, p) == s
  {
    if s != [] {
      FilterKeepsAll(s[1..], p);
    }
  }

  /** With neither parameter the route returns the listings unchanged. */
  lemma NoFilterKeepsAll(listings: seq<Listing>)
    ensures FilterListings(listings, None, None) == listings
    ensures FilterListings(listings, Some("All"), Some("")) == listings
  {
  }

  /** The request body of POST /api/listings. Fields the route overwrites may
      still be present in the body; `id` is the one body field that wins. */
  datatype ListingRequest = ListingRequest(
    id: Option<int>, title: string, description: string, price: real, category: string,
    kind: string, urgency: string, location: string, availability: string,
    images: seq<string>, sellerId: int,
    sellerName: Option<string>, sellerRating: Option<real>, sellerAvatar: Option<string>,
    status: Option<string>, postedDate: Option<string>)

  /** The listing the route builds: `{id: length + 1, ...body, sellerName,
      sellerRating, sellerAvatar, status: 'active', postedDate: today}`. */
  function NewListing(count: nat, body: ListingRequest, seller: Accounts.User, today: string): Listing {
    Listing(body.id.GetOr(count + 1), body.title, body.description, body.price, body.category,
            body.kind, body.urgency, body.location, body.availability, body.images, body.sellerId,
            seller.name, seller.rating, seller.avatar, "active", today)
  }

  /** POST /api/listings, with today's date as `today`: the reply and the
      listings afterwards. A seller id missing from the directory makes
      `seller.name` throw, which the route answers with a 500. */
  function CreateListing(listings: seq<Listing>, users: seq<Accounts.User>, body: ListingRequest, today: string)
    : (r: (Reply<Listing>, seq<Listing>))
    ensures (forall i :: 0 <= i < |users| ==> users[i].id != body.sellerId) ==>
      r == (Rejected(500, ServerErrorMessage), listings)
    ensures r.0.Ok? ==>
      && r.1 == listings + [r.0.value]
      && r.0.value.status == "active"
      && r.0.value.postedDate == today
      && r.0.value.id == body.id.GetOr(|listings| + 1)
      && r.0.value.title == body.title && r.0.value.description == body.description
      && r.0.value.category == body.category && r.0.value.sellerId == body.sellerId
      && r.0.value.price == body.price && r.0.value.kind == body.kind
      && r.0.value.urgency == body.urgency && r.0.value.location == body.location
      && r.0.value.availability == body.availability && r.0.value.images == body.images
      && exists i :: && 0 <= i < |users|
                     && users[i].id == body.sellerId
                     && (forall j :: 0 <= j < i ==> users[j].id != body.sellerId)
                     && r.0.value.sellerName == users[i].name
                     && r.0.value.sellerRating == users[i].rating
                     && r.0.value.sellerAvatar == users[i].avatar
    ensures (exists i :: 0 <= i < |users| && users[i].id == body.sellerId) ==> r.0.Ok?
  {
    match FindFirst(users, (u: Accounts.User) => u.id == body.sellerId)
    case None => (Rejected(500, ServerErrorMessage), listings)
    case Some(i) =>
      var listing := NewListing(|listings|, body, users[i], today);
      (Ok(listing), listings + [listing])
  }

  /** The seller fields, the status and the date a client puts in the body make
      no difference to the listing created. */
  lemma CreateIgnoresBodyOverrides(listings: seq<Listing>, users: seq<Accounts.User>,
                                   body: ListingRequest, body': ListingRequest, today: string)
    requires body' == body.(sellerName := body'.sellerName, sellerRating := body'.sellerRating,
                            sellerAvatar := body'.sellerAvatar, status := body'.status,
                            postedDate := body'.postedDate)
    ensures CreateListing(listings, users, body, today) == CreateListing(listings, users, body', today)
  {
  }
}
