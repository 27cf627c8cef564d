/** The marketplace page of public/js/marketplace.js: the loaded listings, the
    selected category tab, and what `renderListings` shows for them and the
    search box. */
module MarketplaceClient {
  import opened Wrappers
  import opened Seqs
  import opened Text
  import opened Listings

  /** The listings `renderListings` keeps: the category pass runs unless the
      tab is 'All', the search pass unless the lowercased box text is empty. */
  function VisibleListings(all: seq<Listing>, category: string, searchInput: string): seq<Listing> {
    var byCategory := if category != "All" then Filter(all, InCategory(category)) else all;
    var term := Lower(searchInput);
    if term != "" then Filter(byCategory, Matching(term)) else byCategory
  }

  /** What the page keeps, stated per listing. */
  predicate Shown(l: Listing, category: string, searchInput: string) {
    && (category != "All" ==> l.category == category)
    && (searchInput != "" ==> MatchesTerm(l, Lower(searchInput)))
  }

  function ShownBy(category: string, searchInput: string): Listing -> bool {
    (l: Listing) => Shown(l, category, searchInput)
  }

  /** The two passes together keep exactly the shown listings. */
  lemma TwoPassesShow(all: seq<Listing>, category: string, searchInput: string)
    ensures VisibleListings(all, category, searchInput) == Filter(all, ShownBy(category, searchInput))
  {
    var shown := ShownBy(category, searchInput);
    var term := Lower(searchInput);
    assert term == "" <==> searchInput == "";
    if category != "All" && term != "" {
      FilterFilter(all, InCategory(category), Matching(term), shown);
    } else if category != "All" {
      FilterCongruent(all, InCategory(category), shown);
    } else if term != "" {
      FilterCongruent(all, Matching(term), shown);
    } else {
      FilterKeepsAll(all, shown);
    }
  }

  /** The visible listings are an order-preserving subsequence of the loaded
      ones holding every shown listing as often as it was loaded, and nothing
      else. */
  lemma VisibleListingsSpec(all: seq<Listing>, category: string, searchInput: string)
    ensures IsSubsequence(VisibleListings(all, category, searchInput), all)
    ensures forall l :: l in VisibleListings(all, category, searchInput) <==>
      l in all && Shown(l, category, searchInput)
    ensures forall l :: (multiset(VisibleListings(all, category, searchInput))[l] ==
      if Shown(l, category, searchInput) then multiset(all)[l] else 0)
  {
    TwoPassesShow(all, category, searchInput);
    FilterSpec(all, ShownBy(category, searchInput));
  }

  /** For any non-empty tab the page shows what GET /api/listings would return
      for the same category and search text. (An empty tab differs: the page
      keeps only listings with an empty category, the server keeps all.) */
  lemma VisibleMatchesServer(all: seq<Listing>, category: string, searchInput: string)
    requires category != ""
    ensures VisibleListings(all, category, searchInput)
            == FilterListings(all, Some(category), Some(searchInput))
  {
    assert Lower(searchInput) == "" <==> searchInput == "";
    TwoPassesSelect(all, Some(category), Some(searchInput));
  }

  /** The 'All' tab with an empty box shows every listing. */
  lemma AllTabShowsEverything(all: seq<Listing>)
    ensures VisibleListings(all, "All", "") == all
  {
  }

  const PreviewLength := 100

  /** `description.substring(0, 100)`, with '...' when the description is
      longer than 100 characters. */
  function Preview(description: string): (r: string)
    ensures |description| <= PreviewLength ==> r == description
    ensures |description| > PreviewLength ==>
      |r| == PreviewLength + 3 && r[..PreviewLength] == description[..PreviewLength]
      && r[PreviewLength..] == "..."
  {
    if |description| > PreviewLength then description[..PreviewLength] + "..."
    else description
  }

  /** A rendered card. */
  datatype Card = Card(
    listing: Listing, badgeClass: string, urgencyTag: Option<string>,
    soldOverlay: bool, preview: string)

  /** The card `renderListings` builds for one listing. */
  function CardOf(l: Listing): (c: Card)
    ensures c.listing == l
    ensures c.soldOverlay <==> l.status == "sold"
    ensures c.urgencyTag.Some? <==> l.urgency != "Low Urgency"
    ensures c.urgencyTag.Some? ==> c.urgencyTag.value == l.urgency
    ensures c.badgeClass == "badge-" + Lower(l.kind)
    ensures c.preview == Preview(l.description)
  {
    Card(l, "badge-" + Lower(l.kind),
         if l.urgency != "Low Urgency" then Some(l.urgency) else None,
         l.status == "sold", Preview(l.description))
  }

  /** The grid: a "No listings found" notice, or one card per visible listing. */
  datatype Grid = NoListingsFound | Cards(cards: seq<Card>)

  function RenderListings(all: seq<Listing>, category: string, searchInput: string): (g: Grid)
    ensures g.NoListingsFound? <==> VisibleListings(all, category, searchInput) == []
    ensures g.Cards? ==>
      && |g.cards| == |VisibleListings(all, category, searchInput)|
      && forall i :: 0 <= i < |g.cards| ==> g.cards[i] == CardOf(VisibleListings(all, category, searchInput)[i])
  {
    var visible := VisibleListings(all, category, searchInput);
    if visible == [] then NoListingsFound
    else Cards(seq(|visible|, i requires 0 <= i < |visible| => CardOf(visible[i])))
  }

  /** A card is shown for a listing exactly when the listing was loaded and
      passes the tab and the search box. */
  lemma CardShownIff(all: seq<Listing>, category: string, searchInput: string, l: Listing)
    ensures (exists c :: c in CardsOf(RenderListings(all, category, searchInput)) && c.listing == l)
            <==> l in all && Shown(l, category, searchInput)
  {
    VisibleListingsSpec(all, category, searchInput);
    var visible := VisibleListings(all, category, searchInput);
    var cards := CardsOf(RenderListings(all, category, searchInput));
    if l in visible {
      var i :| 0 <= i < |visible| && visible[i] == l;
      assert cards[i] in cards;
    }
  }

  /** The cards of a grid; none for the notice. */
  function CardsOf(g: Grid): seq<Card> {
    if g.Cards? then g.cards else []
  }

  /** The page state. */
  class MarketplaceView {
    var allListings: seq<Listing>
    var currentCategory: string

    /** Page load: nothing loaded, the 'All' tab selected. */
    constructor ()
      ensures allListings == [] && currentCategory == "All"
    {
      allListings := [];
      currentCategory := "All";
    }

    /** `loadListings` once the listings arrive, then `renderListings`. */
    method ListingsLoaded(data: seq<Listing>, searchInput: string) returns (g: Grid)
      modifies this
      ensures allListings == data && currentCategory == old(currentCategory)
      ensures g == RenderListings(data, currentCategory, searchInput)
    {
      allListings := data;
      g := RenderListings(allListings, currentCategory, searchInput);
    }

    /** A click on the tab whose `data-category` is `category`, then `renderListings`. */
    method ClickCategoryTab(category: string, searchInput: string) returns (g: Grid)
      modifies this
      ensures currentCategory == category && allListings == old(allListings)
      ensures g == RenderListings(allListings, category, searchInput)
    {
      currentCategory := category;
      g := RenderListings(allListings, currentCategory, searchInput);
    }

    /** Typing in the search box re-renders without changing the state. */
    method SearchInput(searchInput: string) returns (g: Grid)
      ensures g == RenderListings(allListings, currentCategory, searchInput)
    {
      g := RenderListings(allListings, currentCategory, searchInput);
    }
  }
}
