/**
 * The auction site's forms (auctions/forms.py). Each form carries only
 * the fields its `Meta.fields` names, so the datatypes below have exactly
 * those fields: nothing else of a listing, bid or comment can be set
 * through them.
 */
module AuctionForms {
  import opened Wrappers
  import opened Text
  import opened Fields
  import opened AuctionModels

  /** The raw POST of `CreateListingForm`; prices already read as hundredths. */
  datatype ListingForm = ListingForm(
    title: string,
    description: string,
    startingBid: int,
    imageUrl: string,
    category: string)

  /** `CreateListingForm.cleaned_data`. */
  datatype ListingFields = ListingFields(
    title: string,
    description: string,
    startingBid: int,
    imageUrl: string,
    category: Category)

  /** The constraints the model puts on the five form-settable listing fields. */
  predicate ValidFields(f: ListingFields)
  {
    |f.title| <= TitleMax && |f.description| <= DescriptionMax && ValidPrice(f.startingBid)
  }

  const StartingBidMessage := "Ensure this value is greater than or equal to 0.01."

  /**
   * `starting_bid` as the code checks it: the form field's 5-digit limit
   * first, then the model's `MinValueValidator(0.01)`, whose float limit
   * turns away 0.01 itself.
   */
  function CleanStartingBid(cents: int): (r: Result<int, FieldError>)
    ensures r.Ok? <==> 2 <= cents <= MaxCents
    ensures r.Ok? ==> r.value == cents && ValidPrice(cents)
    ensures FitsDecimal(cents) && cents < 2 ==> r == Err(BelowMinimum(StartingBidMessage))
  {
    FloatHundredthCutsAtTwoCents(cents);
    if !FitsDecimal(cents) then Err(TooManyDigits)
    else if BelowFloatHundredth(cents) then Err(BelowMinimum(StartingBidMessage))
    else Ok(cents)
  }

  /** A starting bid of exactly 0.01 is refused, although the validator names 0.01 as its minimum. */
  lemma OneCentStartingBidRefused()
    ensures ValidPrice(1)
    ensures CleanStartingBid(1) == Err(BelowMinimum(StartingBidMessage))
  {
  }

  /** `starting_bid` as the validator's message describes it: at least 0.01, compared in decimals. */
  function CleanStartingBidIntended(cents: int): (r: Result<int, FieldError>)
    ensures r.Ok? <==> ValidPrice(cents)
    ensures r.Ok? ==> r.value == cents
    ensures FitsDecimal(cents) && cents < MinPriceCents ==> r == Err(BelowMinimum(StartingBidMessage))
  {
    if !FitsDecimal(cents) then Err(TooManyDigits)
    else if cents < MinPriceCents then Err(BelowMinimum(StartingBidMessage))
    else Ok(cents)
  }

  /** The two differ exactly at 0.01. */
  lemma StartingBidCheckDiffersOnlyAtOneCent(cents: int)
    ensures CleanStartingBid(cents) != CleanStartingBidIntended(cents) <==> cents == 1
  {
  }

  /** `category`: required, exactly one of the six choice keys (a choice field does not strip). */
  function CleanCategory(raw: string): (r: Result<Category, FieldError>)
    ensures r.Ok? <==> ParseCategory(raw).Some?
    ensures r.Ok? ==> CategoryKey(r.value) == raw
  {
    if raw == [] then Err(Required)
    else match ParseCategory(raw)
      case Some(c) => Ok(c)
      case None => Err(InvalidChoice)
  }

  /** A model `URLField` is a character field of at most 200 characters. */
  const ImageUrlMax := 200

  /**
   * `CreateListingForm(request.POST).is_valid()`: the fields are cleaned
   * in declaration order and the first error is reported.
   */
  function CleanListingForm(f: ListingForm): (r: Result<ListingFields, FieldError>)
    ensures r.Ok? <==>
              && CleanChar(f.title, true, Some(TitleMax)).Ok?
              && CleanChar(f.description, true, Some(DescriptionMax)).Ok?
              && 2 <= f.startingBid <= MaxCents
              && CleanChar(f.imageUrl, false, Some(ImageUrlMax)).Ok?
              && ParseCategory(f.category).Some?
    ensures r.Ok? ==> ValidFields(r.value)
    ensures r.Ok? ==>
              && r.value.title == Strip(f.title)
              && r.value.description == Strip(f.description)
              && r.value.startingBid == f.startingBid
              && r.value.imageUrl == Strip(f.imageUrl)
              && CategoryKey(r.value.category) == f.category
  {
    match CleanChar(f.title, true, Some(TitleMax))
    case Err(e) => Err(e)
    case Ok(title) =>
      match CleanChar(f.description, true, Some(DescriptionMax))
      case Err(e) => Err(e)
      case Ok(description) =>
        match CleanStartingBid(f.startingBid)
        case Err(e) => Err(e)
        case Ok(startingBid) =>
          match CleanChar(f.imageUrl, false, Some(ImageUrlMax))
          case Err(e) => Err(e)
          case Ok(imageUrl) =>
            match CleanCategory(f.category)
            case Err(e) => Err(e)
            case Ok(category) => Ok(ListingFields(title, description, startingBid, imageUrl, category))
  }

  /** The message `NewBidForm` attaches to a price below `min_bid`. */
  const BidTooLowMessage := "Enter a bid higher than the current price."

  /** A constructed `NewBidForm`: its price validator is `MinValueValidator(min_bid)`. */
  datatype BidForm = BidForm(minBid: int)

  datatype BidFormError = MissingMinBid   // `kwargs.pop("min_bid")` raises KeyError

  /** `NewBidForm(..., min_bid=...)`; building the form without `min_bid` fails. */
  function NewBidForm(minBid: Option<int>): (r: Result<BidForm, BidFormError>)
    ensures r.Ok? <==> minBid.Some?
    ensures r.Ok? ==> r.value.minBid == minBid.value
  {
    match minBid
    case None => Err(MissingMinBid)
    case Some(m) => Ok(BidForm(m))
  }

  /**
   * The POST of `NewBidForm`: `bidder` and `listing` come from hidden
   * inputs, so they are whatever the client submitted.
   */
  datatype BidSubmission = BidSubmission(bidder: UserId, listing: ListingId, price: int)

  datatype BidError =
    | UnknownListing                // the hidden `listing` names no listing
    | PriceTooLow(message: string)  // the replaced field validator
    | PriceTooManyDigits            // the model's own decimal validator

  /**
   * `NewBidForm.is_valid()`: the hidden listing must exist; the price
   * passes the form's validator when `price >= min_bid`, and only then is
   * it checked against the model's 5-digit limit.
   */
  function ValidateBid(form: BidForm, sub: BidSubmission, listingExists: bool): (errors: seq<BidError>)
    ensures errors == [] <==> listingExists && sub.price >= form.minBid && FitsDecimal(sub.price)
    ensures PriceTooLow(BidTooLowMessage) in errors <==> sub.price < form.minBid
    ensures UnknownListing in errors <==> !listingExists
  {
    (if listingExists then [] else [UnknownListing])
    + (if sub.price < form.minBid then [PriceTooLow(BidTooLowMessage)]
       else if !FitsDecimal(sub.price) then [PriceTooManyDigits]
       else [])
  }

  /** `NewCommentForm`: `comment` is required and at most 200 characters. */
  function CleanCommentForm(raw: string): (r: Result<string, FieldError>)
    ensures r.Ok? <==> CleanChar(raw, true, Some(CommentMax)).Ok?
    ensures r.Ok? ==> r.value == Strip(raw) && r.value != [] && |r.value| <= CommentMax
  {
    CleanChar(raw, true, Some(CommentMax))
  }
}
