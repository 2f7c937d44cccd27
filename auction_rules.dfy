/**
 * The business rules of the auction views (auctions/views.py) as
 * functions on one listing's state, and what they guarantee over any
 * sequence of requests. The `Auctions` and `Listing` classes carry these
 * steps out in place.
 */
module AuctionRules {
  import opened Wrappers
  import opened Fields
  import opened AuctionModels
  import opened AuctionForms

  /** A new listing from a valid `CreateListingForm`: the creator is the acting user, the price starts at the starting bid, and it is open. */
  function NewListing(f: ListingFields, creator: UserId): (s: ListingState)
  {
    ListingState(creator, f.title, f.description, f.startingBid, f.imageUrl, f.category,
                 f.startingBid, None, false, None, {})
  }

  lemma NewListingIsOpenAndValid(f: ListingFields, creator: UserId)
    requires ValidFields(f)
    ensures var s := NewListing(f, creator);
      && s.creator == creator && s.currentPrice == f.startingBid
      && !s.isClosed && s.currentBidder.None? && s.winner.None? && s.watchers == {}
      && ValidListing(s)
  {
  }

  /** The creator's close: snapshot the leading bidder as winner, then clear it. `is_closed` is not consulted. */
  function CloseListing(s: ListingState): (r: ListingState)
  {
    s.(isClosed := true, winner := s.currentBidder, currentBidder := None)
  }

  /** What a POST to a listing page did. */
  datatype PostOutcome =
    | Closed                          // the creator closed the listing
    | ShownClosed                     // a non-creator posted to a closed listing
    | BidRejected(errors: seq<BidError>)
    | BidAccepted(bid: Bid, tookLead: bool)

  datatype Transition = Transition(outcome: PostOutcome, next: ListingState)

  /**
   * POST to a listing page by `actor` (None when anonymous): the creator
   * closes; anyone else is shown a closed listing unchanged, or has the
   * bid form checked against `min_bid = current_price`. A valid bid is
   * always stored, but it takes the lead only when strictly higher.
   */
  function ListingPost(s: ListingState, actor: Option<UserId>, sub: BidSubmission, listingExists: bool): (t: Transition)
  {
    if actor == Some(s.creator) then Transition(Closed, CloseListing(s))
    else if s.isClosed then Transition(ShownClosed, s)
    else
      var errors := ValidateBid(BidForm(s.currentPrice), sub, listingExists);
      if errors != [] then Transition(BidRejected(errors), s)
      else
        var bid := Bid(sub.bidder, sub.listing, sub.price);
        if bid.price > s.currentPrice
        then Transition(BidAccepted(bid, true), s.(currentPrice := bid.price, currentBidder := Some(bid.bidder)))
        else Transition(BidAccepted(bid, false), s)
  }

  /** The Bid rows a listing POST adds. */
  function StoredBids(o: PostOutcome): (bids: seq<Bid>)
    ensures |bids| <= 1
    ensures bids != [] <==> o.BidAccepted?
  {
    if o.BidAccepted? then [o.bid] else []
  }

  /** The watchlist POST: "add" inserts the user, "remove" deletes it, anything else does nothing. */
  function WatchPost(s: ListingState, user: UserId, choice: Option<string>): (r: ListingState)
  {
    if choice == Some("add") then s.(watchers := s.watchers + {user})
    else if choice == Some("remove") then s.(watchers := s.watchers - {user})
    else s
  }

  /** What the watchlist GET does to one listing: a closed listing loses all its watchers. */
  function ClearIfClosed(s: ListingState): (r: ListingState)
  {
    if s.isClosed then s.(watchers := {}) else s
  }

  /** The watchlist GET over all listings. */
  function ClearClosed(states: seq<ListingState>): (r: seq<ListingState>)
    ensures |r| == |states|
    ensures forall i :: 0 <= i < |states| ==> r[i] == ClearIfClosed(states[i])
  {
    seq(|states|, i requires 0 <= i < |states| => ClearIfClosed(states[i]))
  }

  /** Indices whose flag is set, in increasing order. */
  function IndicesWhere(flags: seq<bool>): (ids: seq<nat>)
    ensures forall i :: i in ids <==> 0 <= i < |flags| && flags[i]
    ensures forall j, k :: 0 <= j < k < |ids| ==> ids[j] < ids[k]
  {
    if flags == [] then []
    else
      var n := |flags| - 1;
      var before := IndicesWhere(flags[..n]);
      assert forall j :: 0 <= j < |before| ==> before[j] in before;
      before + (if flags[n] then [n] else [])
  }

  /** The index page: `Listing.objects.exclude(is_closed=True)`. */
  function ActiveListings(states: seq<ListingState>): (ids: seq<ListingId>)
    ensures forall id: ListingId :: id in ids <==> id < |states| && !states[id].isClosed
    ensures forall j, k :: 0 <= j < k < |ids| ==> ids[j] < ids[k]
  {
    IndicesWhere(seq(|states|, i requires 0 <= i < |states| => !states[i].isClosed))
  }

  /** `user.watchlist.all()`: the listings `user` watches. */
  function WatchedBy(states: seq<ListingState>, user: UserId): (ids: seq<ListingId>)
    ensures forall id: ListingId :: id in ids <==> id < |states| && user in states[id].watchers
    ensures forall j, k :: 0 <= j < k < |ids| ==> ids[j] < ids[k]
  {
    IndicesWhere(seq(|states|, i requires 0 <= i < |states| => user in states[i].watchers))
  }

  // ---------------------------------------------------------------------
  // One request at a time

  /** The creator's POST always closes and never reaches the bid branch. */
  lemma CreatorOnlyCloses(s: ListingState, sub: BidSubmission, listingExists: bool)
    ensures ListingPost(s, Some(s.creator), sub, listingExists) == Transition(Closed, CloseListing(s))
    ensures StoredBids(ListingPost(s, Some(s.creator), sub, listingExists).outcome) == []
  {
  }

  /** Closing snapshots the leading bidder as winner and clears the lead. */
  lemma CloseSetsWinner(s: ListingState)
    ensures var r := CloseListing(s);
      r.isClosed && r.winner == s.currentBidder && r.currentBidder.None?
      && r.currentPrice == s.currentPrice && r.watchers == s.watchers && r.creator == s.creator
  {
  }

  /** Closing again does not check `is_closed`, so it overwrites the winner with nobody. */
  lemma ReclosingWipesWinner(s: ListingState)
    ensures CloseListing(CloseListing(s)).isClosed
    ensures CloseListing(CloseListing(s)).winner.None?
  {
  }

  /** A non-creator posting to a closed listing changes nothing and stores no bid. */
  lemma ClosedListingUnchanged(s: ListingState, actor: Option<UserId>, sub: BidSubmission, listingExists: bool)
    requires s.isClosed && actor != Some(s.creator)
    ensures ListingPost(s, actor, sub, listingExists) == Transition(ShownClosed, s)
  {
  }

  /** A bid below the current price fails with the form's message; nothing is stored or changed. */
  lemma LowBidRejected(s: ListingState, actor: Option<UserId>, sub: BidSubmission, listingExists: bool)
    requires !s.isClosed && actor != Some(s.creator) && sub.price < s.currentPrice
    ensures var t := ListingPost(s, actor, sub, listingExists);
      t.outcome.BidRejected? && PriceTooLow(BidTooLowMessage) in t.outcome.errors
      && t.next == s && StoredBids(t.outcome) == []
  {
  }

  /** A bid is stored exactly when a non-creator posts a valid bid form to an open listing. */
  lemma BidStoredIff(s: ListingState, actor: Option<UserId>, sub: BidSubmission, listingExists: bool)
    ensures var t := ListingPost(s, actor, sub, listingExists);
      t.outcome.BidAccepted? <==>
        actor != Some(s.creator) && !s.isClosed && listingExists
        && s.currentPrice <= sub.price && FitsDecimal(sub.price)
    ensures var t := ListingPost(s, actor, sub, listingExists);
      t.outcome.BidAccepted? ==> t.outcome.bid == Bid(sub.bidder, sub.listing, sub.price)
  {
  }

  /** A stored bid takes the lead, with the submitted bidder, exactly when strictly higher; a bid equal to the price is stored without it. */
  lemma StoredBidLeadsIffHigher(s: ListingState, actor: Option<UserId>, sub: BidSubmission, listingExists: bool)
    requires ListingPost(s, actor, sub, listingExists).outcome.BidAccepted?
    ensures var t := ListingPost(s, actor, sub, listingExists);
      && (t.outcome.tookLead <==> sub.price > s.currentPrice)
      && (t.outcome.tookLead ==> t.next == s.(currentPrice := sub.price, currentBidder := Some(sub.bidder)))
      && (!t.outcome.tookLead ==> t.next == s && sub.price == s.currentPrice)
  {
  }

  /** Adding then removing a watcher leaves the watchers without that user; nothing else changes. */
  lemma WatchAddRemove(s: ListingState, user: UserId)
    ensures user in WatchPost(s, user, Some("add")).watchers
    ensures user !in WatchPost(s, user, Some("remove")).watchers
    ensures WatchPost(WatchPost(s, user, Some("add")), user, Some("remove")) == s.(watchers := s.watchers - {user})
    ensures WatchPost(s, user, Some("add")).(watchers := s.watchers) == s
  {
  }

  /** The watchlist GET empties every closed listing, leaves open ones alone, and is idempotent. */
  lemma ClearClosedEffect(states: seq<ListingState>)
    ensures forall i :: 0 <= i < |states| && states[i].isClosed ==> ClearClosed(states)[i].watchers == {}
    ensures forall i :: 0 <= i < |states| && !states[i].isClosed ==> ClearClosed(states)[i] == states[i]
    ensures ClearClosed(ClearClosed(states)) == ClearClosed(states)
  {
  }

  /** After the watchlist GET, a user's watchlist lists only open listings. */
  lemma WatchlistShowsOnlyOpen(states: seq<ListingState>, user: UserId)
    ensures forall id :: id in WatchedBy(ClearClosed(states), user) ==> !states[id].isClosed
  {
  }

  // ---------------------------------------------------------------------
  // Any sequence of requests on one listing

  /** A request that acts on an existing listing. */
  datatype Action =
    | PostTo(actor: Option<UserId>, sub: BidSubmission, listingExists: bool)
    | WatchlistPost(user: UserId, choice: Option<string>)
    | WatchlistVisit

  function Apply(s: ListingState, a: Action): ListingState
  {
    match a
    case PostTo(actor, sub, known) => ListingPost(s, actor, sub, known).next
    case WatchlistPost(user, choice) => WatchPost(s, user, choice)
    case WatchlistVisit => ClearIfClosed(s)
  }

  function Run(s: ListingState, acts: seq<Action>): ListingState
    decreases |acts|
  {
    if acts == [] then s else Run(Apply(s, acts[0]), acts[1..])
  }

  /** Prices of the bids stored along a run, in order. */
  function AcceptedPrices(s: ListingState, acts: seq<Action>): seq<int>
    decreases |acts|
  {
    if acts == [] then []
    else
      var here := match acts[0]
        case PostTo(actor, sub, known) =>
          var o := ListingPost(s, actor, sub, known).outcome;
          if o.BidAccepted? then [o.bid.price] else []
        case _ => [];
      here + AcceptedPrices(Apply(s, acts[0]), acts[1..])
  }

  /** The largest of `m` and the elements of `xs`. */
  function MaxOf(m: int, xs: seq<int>): int
    decreases |xs|
  {
    if xs == [] then m else MaxOf(if xs[0] > m then xs[0] else m, xs[1..])
  }

  lemma StepKeepsValid(s: ListingState, a: Action)
    requires ValidListing(s)
    ensures ValidListing(Apply(s, a))
  {
  }

  lemma {:induction false} RunKeepsValid(s: ListingState, acts: seq<Action>)
    requires ValidListing(s)
    ensures ValidListing(Run(s, acts))
    decreases |acts|
  {
    if acts != [] {
      StepKeepsValid(s, acts[0]);
      RunKeepsValid(Apply(s, acts[0]), acts[1..]);
    }
  }

  /** The current price never decreases, whatever the requests. */
  lemma {:induction false} PriceNeverDecreases(s: ListingState, acts: seq<Action>)
    ensures Run(s, acts).currentPrice >= s.currentPrice
    decreases |acts|
  {
    if acts != [] {
      PriceNeverDecreases(Apply(s, acts[0]), acts[1..]);
    }
  }

  /**
   * No request ever reopens a closed listing; once closed its price stays
   * put, and a valid closed listing never gains a leading bidder again.
   */
  lemma {:induction false} ClosedStaysClosed(s: ListingState, acts: seq<Action>)
    requires s.isClosed
    ensures Run(s, acts).isClosed
    ensures Run(s, acts).currentPrice == s.currentPrice
    ensures ValidListing(s) ==> Run(s, acts).currentBidder.None?
    decreases |acts|
  {
    if acts != [] {
      ClosedStaysClosed(Apply(s, acts[0]), acts[1..]);
    }
    if ValidListing(s) {
      RunKeepsValid(s, acts);
    }
  }

  /** The current price is always the highest of the starting price and every bid stored since. */
  lemma {:induction false} PriceIsHighestStoredBid(s: ListingState, acts: seq<Action>)
    ensures Run(s, acts).currentPrice == MaxOf(s.currentPrice, AcceptedPrices(s, acts))
    decreases |acts|
  {
    if acts != [] {
      var s' := Apply(s, acts[0]);
      PriceIsHighestStoredBid(s', acts[1..]);
      match acts[0]
      case PostTo(actor, sub, known) =>
        var t := ListingPost(s, actor, sub, known);
        if t.outcome.BidAccepted? {
          assert AcceptedPrices(s, acts) == [sub.price] + AcceptedPrices(s', acts[1..]);
        } else {
          assert AcceptedPrices(s, acts) == AcceptedPrices(s', acts[1..]);
        }
      case WatchlistPost(_, _) =>
        assert AcceptedPrices(s, acts) == AcceptedPrices(s', acts[1..]);
      case WatchlistVisit =>
        assert AcceptedPrices(s, acts) == AcceptedPrices(s', acts[1..]);
    }
  }
}
