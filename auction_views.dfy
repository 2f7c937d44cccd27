/**
 * The auction views (auctions/views.py) over an in-memory store: each
 * listing is an object whose fields the views assign in place, and the
 * store keeps the listings (a listing's id is its position), the Bid rows
 * and the Comment rows. Every view is proved to carry out the matching
 * step of `AuctionRules` on the listing it touches and nothing else.
 */
module AuctionViews {
  import opened Wrappers
  import opened Fields
  import opened AuctionModels
  import opened AuctionForms
  import opened AuctionRules

  class Listing {
    const id: ListingId
    const creator: UserId
    var title: string
    var description: string
    var startingBid: int
    var imageUrl: string
    var category: Category
    var currentPrice: int
    var currentBidder: Option<UserId>
    var isClosed: bool
    var winner: Option<UserId>
    var watchers: set<UserId>

    /** The row's persistent fields as a value. */
    function State(): ListingState
      reads this
    {
      ListingState(creator, title, description, startingBid, imageUrl, category,
                   currentPrice, currentBidder, isClosed, winner, watchers)
    }

    ghost predicate Valid()
      reads this
    {
      ValidListing(State())
    }

    /** `form.save(commit=False)`, then `creator` and `current_price` assigned by the view. */
    constructor (id: ListingId, creator: UserId, f: ListingFields)
      ensures this.id == id
      ensures State() == NewListing(f, creator)
    {
      this.id := id;
      this.creator := creator;
      title := f.title;
      description := f.description;
      startingBid := f.startingBid;
      imageUrl := f.imageUrl;
      category := f.category;
      currentPrice := f.startingBid;
      currentBidder := None;
      isClosed := false;
      winner := None;
      watchers := {};
    }

    method Close()
      modifies this
      ensures State() == CloseListing(old(State()))
    {
      isClosed := true;
      winner := currentBidder;
      currentBidder := None;
    }

    method TakeLead(price: int, bidder: UserId)
      modifies this
      ensures State() == old(State()).(currentPrice := price, currentBidder := Some(bidder))
    {
      currentPrice := price;
      currentBidder := Some(bidder);
    }

    method AddWatcher(user: UserId)
      modifies this
      ensures State() == old(State()).(watchers := old(watchers) + {user})
    {
      watchers := watchers + {user};
    }

    method RemoveWatcher(user: UserId)
      modifies this
      ensures State() == old(State()).(watchers := old(watchers) - {user})
    {
      watchers := watchers - {user};
    }

    method ClearWatchers()
      modifies this
      ensures State() == old(State()).(watchers := {})
    {
      watchers := {};
    }
  }

  datatype AuctionError =
    | ListingNotFound           // `Listing.objects.get` raises DoesNotExist
    | InvalidForm(error: FieldError)
    | NoResponse                // the watchlist POST names neither "add" nor "remove"

  class Auctions {
    var listings: seq<Listing>
    var bids: seq<Bid>
    var comments: seq<Comment>

    ghost predicate Valid()
      reads this, listings
    {
      && (forall i :: 0 <= i < |listings| ==> listings[i].id == i && listings[i].Valid())
      && (forall b :: b in bids ==> ValidBid(b))
      && (forall c :: c in comments ==> ValidComment(c))
    }

    /** Every listing's persistent fields, by id. */
    function States(): (r: seq<ListingState>)
      reads this, listings
      ensures |r| == |listings|
      ensures forall i :: 0 <= i < |listings| ==> r[i] == listings[i].State()
    {
      seq(|listings|, i reads this, listings requires 0 <= i < |listings| => listings[i].State())
    }

    constructor ()
      ensures Valid() && listings == [] && bids == [] && comments == []
    {
      listings := [];
      bids := [];
      comments := [];
    }

    /** The index page: ids of the listings that are not closed. */
    function Index(): (ids: seq<ListingId>)
      reads this, listings
      ensures forall id: ListingId :: id in ids <==> id < |listings| && !listings[id].isClosed
    {
      ActiveListings(States())
    }

    /** `create` (POST): a valid form adds a listing owned by `actor`; an invalid one changes nothing. */
    method Create(actor: UserId, form: ListingForm) returns (r: Result<ListingId, AuctionError>)
      requires Valid()
      modifies this
      ensures Valid()
      ensures bids == old(bids) && comments == old(comments)
      ensures CleanListingForm(form).Err? ==>
                r == Err(InvalidForm(CleanListingForm(form).error)) && listings == old(listings)
      ensures CleanListingForm(form).Ok? ==>
                && r == Ok(old(|listings|))
                && |listings| == old(|listings|) + 1
                && fresh(listings[old(|listings|)])
                && States() == old(States()) + [NewListing(CleanListingForm(form).value, actor)]
    {
      var cleaned := CleanListingForm(form);
      if cleaned.Err? {
        return Err(InvalidForm(cleaned.error));
      }
      NewListingIsOpenAndValid(cleaned.value, actor);
      ghost var before := States();
      var l := new Listing(|listings|, actor, cleaned.value);
      assert States() == before;
      Add(l);
      r := Ok(l.id);
    }

    /** `new_listing.save()`: the listing is stored under the next id. */
    method Add(l: Listing)
      requires Valid() && l.Valid() && l.id == |listings| && l !in listings
      modifies this
      ensures Valid()
      ensures listings == old(listings) + [l]
      ensures bids == old(bids) && comments == old(comments)
      ensures States() == old(States()) + [l.State()]
    {
      listings := listings + [l];
    }

    /**
     * `listing` (POST) by `actor` on listing `id`: the listing changes as
     * `ListingPost` says, a stored bid is appended to the Bid rows, and no
     * other listing changes.
     */
    method PostToListing(actor: Option<UserId>, id: ListingId, sub: BidSubmission)
      returns (r: Result<PostOutcome, AuctionError>)
      requires Valid()
      modifies this, listings
      ensures Valid()
      ensures listings == old(listings) && comments == old(comments)
      ensures id >= |listings| ==>
                r == Err(ListingNotFound) && States() == old(States()) && bids == old(bids)
      ensures id < |listings| ==>
                var t := ListingPost(old(States())[id], actor, sub, sub.listing < |listings|);
                && r == Ok(t.outcome)
                && States() == old(States())[id := t.next]
                && bids == old(bids) + StoredBids(t.outcome)
    {
      if id >= |listings| {
        return Err(ListingNotFound);
      }
      var l := listings[id];
      ghost var before := States();
      if actor == Some(l.creator) {
        l.Close();
        r := Ok(Closed);
      } else if l.isClosed {
        r := Ok(ShownClosed);
      } else {
        var form := BidForm(l.currentPrice);
        var errors := ValidateBid(form, sub, sub.listing < |listings|);
        if errors != [] {
          r := Ok(BidRejected(errors));
        } else {
          var bid := Bid(sub.bidder, sub.listing, sub.price);
          bids := bids + [bid];
          var lead := bid.price > l.currentPrice;
          if lead {
            l.TakeLead(bid.price, bid.bidder);
          }
          r := Ok(BidAccepted(bid, lead));
        }
      }
      assert forall i :: 0 <= i < |listings| && i != id ==> listings[i].id != l.id;
      StepKeepsValid(before[id], PostTo(actor, sub, sub.listing < |listings|));
    }

    /** `watchlist` (POST): add or remove `actor` among the listing's watchers. */
    method PostWatchlist(actor: UserId, id: ListingId, choice: Option<string>)
      returns (r: Result<(), AuctionError>)
      requires Valid()
      modifies listings
      ensures Valid()
      ensures bids == old(bids) && comments == old(comments)
      ensures id >= |listings| ==> r == Err(ListingNotFound) && States() == old(States())
      ensures id < |listings| ==>
                && (r.Ok? <==> choice == Some("add") || choice == Some("remove"))
                && (r.Err? ==> r == Err(NoResponse))
                && States() == old(States())[id := WatchPost(old(States())[id], actor, choice)]
    {
      if id >= |listings| {
        return Err(ListingNotFound);
      }
      var l := listings[id];
      ghost var before := States();
      if choice == Some("add") {
        l.AddWatcher(actor);
        r := Ok(());
      } else if choice == Some("remove") {
        l.RemoveWatcher(actor);
        r := Ok(());
      } else {
        r := Err(NoResponse);
      }
      assert forall i :: 0 <= i < |listings| && i != id ==> listings[i].id != l.id;
      StepKeepsValid(before[id], WatchlistPost(actor, choice));
    }

    /**
     * `watchlist` (GET): clear the watchers of every closed listing, then
     * list the listings `actor` watches.
     */
    method VisitWatchlist(actor: UserId) returns (watched: seq<ListingId>)
      requires Valid()
      modifies listings
      ensures Valid()
      ensures bids == old(bids) && comments == old(comments)
      ensures States() == ClearClosed(old(States()))
      ensures watched == WatchedBy(States(), actor)
    {
      ghost var before := States();
      var i := 0;
      while i < |listings|
        invariant 0 <= i <= |listings|
        invariant forall j :: 0 <= j < |listings| ==> listings[j].id == j
        invariant forall j :: 0 <= j < i ==> listings[j].State() == ClearIfClosed(before[j])
        invariant forall j :: i <= j < |listings| ==> listings[j].State() == before[j]
      {
        var l := listings[i];
        if l.isClosed {
          l.ClearWatchers();
        }
        i := i + 1;
      }
      forall j | 0 <= j < |listings|
        ensures listings[j].Valid()
      {
        StepKeepsValid(before[j], WatchlistVisit);
      }
      watched := WatchedBy(States(), actor);
    }

    /** `comment` (POST): a valid comment is stored against the listing; open or closed does not matter. */
    method PostComment(actor: UserId, id: ListingId, raw: string) returns (r: Result<(), AuctionError>)
      requires Valid()
      modifies this
      ensures Valid()
      ensures listings == old(listings) && bids == old(bids)
      ensures CleanCommentForm(raw).Err? ==>
                r == Err(InvalidForm(CleanCommentForm(raw).error)) && comments == old(comments)
      ensures CleanCommentForm(raw).Ok? && id >= |listings| ==>
                r == Err(ListingNotFound) && comments == old(comments)
      ensures CleanCommentForm(raw).Ok? && id < |listings| ==>
                r == Ok(()) && comments == old(comments) + [Comment(actor, id, CleanCommentForm(raw).value)]
    {
      match CleanCommentForm(raw)
      case Err(e) =>
        r := Err(InvalidForm(e));
      case Ok(text) =>
        if id >= |listings| {
          r := Err(ListingNotFound);
        } else {
          comments := comments + [Comment(actor, id, text)];
          r := Ok(());
        }
    }
  }
}
