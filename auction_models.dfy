/**
 * The auction site's records (auctions/models.py): field types and the
 * constraints the schema declares, as predicates on values. Prices are
 * decimals with two places, kept here as whole hundredths (cents).
 */
module AuctionModels {
  import opened Wrappers
  import opened Fields

  type UserId = nat
  type ListingId = nat

  /** The bound `MinValueValidator(0.01)` on `starting_bid` and `current_price` is meant to set. */
  const MinPriceCents := 1

  /**
   * The limit of `MinValueValidator(0.01)` is a binary float, the double
   * nearest 0.01: 5764607523034235 / 2^59, a little above one hundredth.
   * A decimal is compared with it exactly, so `cents / 100` is below it
   * when `cents * 2^59 < 100 * 5764607523034235`.
   */
  predicate BelowFloatHundredth(cents: int)
  {
    cents * 576460752303423488 < 100 * 5764607523034235
  }

  /** One cent is below the float limit and two cents are not: the real minimum is 0.02. */
  lemma FloatHundredthCutsAtTwoCents(cents: int)
    ensures BelowFloatHundredth(cents) <==> cents < 2
  {
    if cents >= 2 {
      assert cents * 576460752303423488 >= 2 * 576460752303423488;
    } else {
      assert cents * 576460752303423488 <= 576460752303423488;
    }
  }

  const TitleMax := 32
  const DescriptionMax := 128
  const CommentMax := 200

  /** A listing price: at least 0.01 and at most 999.99. */
  predicate ValidPrice(cents: int)
  {
    MinPriceCents <= cents && FitsDecimal(cents)
  }

  /** `Listing.CATEGORY_CHOICES`. */
  datatype Category = Fashion | Toys | HomeAppliances | Electronics | Food | Others

  /** The stored key of each category choice. */
  function CategoryKey(c: Category): string
  {
    match c
    case Fashion => "fashion"
    case Toys => "toys"
    case HomeAppliances => "home_appliances"
    case Electronics => "electronics"
    case Food => "food"
    case Others => "others"
  }

  /** The choice whose key is `key`, if any. */
  function ParseCategory(key: string): (r: Option<Category>)
    ensures r.Some? ==> CategoryKey(r.value) == key
    ensures |key| > 20 ==> r.None?
  {
    if key == "fashion" then Some(Fashion)
    else if key == "toys" then Some(Toys)
    else if key == "home_appliances" then Some(HomeAppliances)
    else if key == "electronics" then Some(Electronics)
    else if key == "food" then Some(Food)
    else if key == "others" then Some(Others)
    else None
  }

  /** Every choice key is accepted back as that choice, and keys fit `max_length=20`. */
  lemma CategoryKeyRoundTrip(c: Category)
    ensures ParseCategory(CategoryKey(c)) == Some(c)
    ensures |CategoryKey(c)| <= 20
  {
  }

  /** The persistent fields of one `Listing` row. */
  datatype ListingState = ListingState(
    creator: UserId,
    title: string,
    description: string,
    startingBid: int,
    imageUrl: string,
    category: Category,
    currentPrice: int,
    currentBidder: Option<UserId>,
    isClosed: bool,
    winner: Option<UserId>,
    watchers: set<UserId>)

  /**
   * What the schema and the views together keep true of a listing:
   * the length limits and price range of its fields, a price that never
   * fell below the starting bid, no winner while open and no leading
   * bidder once closed.
   */
  predicate ValidListing(s: ListingState)
  {
    && |s.title| <= TitleMax
    && |s.description| <= DescriptionMax
    && ValidPrice(s.startingBid)
    && s.startingBid <= s.currentPrice <= MaxCents
    && (!s.isClosed ==> s.winner.None?)
    && (s.isClosed ==> s.currentBidder.None?)
  }

  /** One `Bid` row; `price` has 5 digits and 2 decimals and no lower bound. */
  datatype Bid = Bid(bidder: UserId, listing: ListingId, price: int)

  predicate ValidBid(b: Bid)
  {
    FitsDecimal(b.price)
  }

  /** One `Comment` row. */
  datatype Comment = Comment(commentor: UserId, listing: ListingId, text: string)

  predicate ValidComment(c: Comment)
  {
    |c.text| <= CommentMax
  }
}
