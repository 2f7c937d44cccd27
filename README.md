# Business rules of three web apps and a mail client, in Dafny

This project models the rules buried in the views of four small web
applications: an auction site (listings, bids, comments, watchlists), a
social network (posts, follows, likes), a markdown wiki, and the
reply/archive/heading rules of a single-page mail client. The object
store of the web framework is replaced by in-memory collections held in
classes whose fields the views update in place; the rules themselves are
functions on values, and lemmas state what the rules guarantee.

Modules, one per source file plus helpers:

- `Wrappers` — `Option` and `Result`.
- `Text` — ASCII lower/upper case, substring search (`Contains`, with
  `ContainsIffOccurs` tying it to an index), Python-style `strip`, and
  subsequence order.
- `Fields` — what the framework's form fields do to a value before a
  view sees it: a character field strips surrounding whitespace, then
  checks "required", `max_length` and NUL characters; a decimal field with
  5 digits and 2 decimals holds at most 999.99 in magnitude.
- `AuctionModels`, `AuctionForms`, `AuctionRules`, `AuctionViews` — the
  auction site. Prices are whole cents. `AuctionRules` gives each view's
  effect on one listing as a function (`ListingPost`, `WatchPost`,
  `ClearIfClosed`) and proves what holds across any sequence of requests;
  `AuctionViews` has the `Listing` class (fields assigned in place) and
  the `Auctions` store (listings by id, Bid rows, Comment rows), whose
  methods are proved to carry out exactly those steps. `ValidListing` is
  the invariant every listing keeps: the schema's length and price limits,
  `starting_bid <= current_price <= 999.99`, no winner while open and no
  leading bidder once closed.
- `NetworkModels`, `NetworkRules`, `NetworkViews` — the social network.
  Follow and Like rows are lists; the store's invariant keeps at most one
  row per pair and distinct usernames.
- `WikiForms`, `WikiViews` — the wiki; the store is a map from title to
  markdown.
- `MailInbox` — the mail client's pure string rules.

A bid equal to the current price passes the bid form (its validator is
`MinValueValidator(min_bid)`, which is inclusive) and is stored as a Bid
row, but only a strictly higher bid moves the price and the lead. The
app's own wording ("Enter a bid higher than the current price.") asks for
more; the model follows the code.

## Model

| member | source | states |
|---|---|---|
| AuctionModels.ParseCategory | proj2/commerce/auctions/models.py:16-23 | a category key is accepted only if it is one of the six choice keys, and the choice found has that key |
| AuctionModels.CategoryKeyRoundTrip | proj2/commerce/auctions/models.py:16-36 | every choice key parses back to its choice and fits the field's 20 characters |
| AuctionModels.FloatHundredthCutsAtTwoCents | proj2/commerce/auctions/models.py:34 | against the float limit of `MinValueValidator(0.01)`, a whole number of cents is too small exactly when it is below 2 |
| AuctionForms.CleanStartingBid | proj2/commerce/auctions/models.py:34 | a starting bid is accepted exactly when it is between 0.02 and 999.99; 0.01 and below get the validator's message, and the accepted value is a valid listing price |
| AuctionForms.OneCentStartingBidRefused | proj2/commerce/auctions/models.py:34 | a starting bid of 0.01 is turned away although it meets the minimum the validator names |
| AuctionForms.CleanStartingBidIntended | proj2/commerce/auctions/models.py:34 | the check the validator describes: accepted exactly when between 0.01 and 999.99 |
| AuctionForms.StartingBidCheckDiffersOnlyAtOneCent | proj2/commerce/auctions/models.py:34 | the check as written and the intended one disagree on 0.01 and on no other amount |
| AuctionForms.CleanListingForm | proj2/commerce/auctions/forms.py:7-14 | the listing form is valid exactly when title (required, at most 32 after stripping), description (required, at most 128), starting bid, image URL (optional) and category each pass, the starting bid being accepted from 0.02 to 999.99; its result satisfies the model limits and carries only those five fields |
| AuctionForms.NewBidForm | proj2/commerce/auctions/forms.py:44-48 | the bid form can be built only when `min_bid` is given, and its bound is that value |
| AuctionForms.ValidateBid | proj2/commerce/auctions/forms.py:35-48 | a bid passes exactly when its listing exists, `price >= min_bid` (inclusive) and it fits 5 digits; a price below the bound always carries "Enter a bid higher than the current price." |
| AuctionForms.CleanCommentForm | proj2/commerce/auctions/forms.py:51-57 | a comment is accepted exactly when, stripped, it is non-empty and at most 200 characters |
| AuctionRules.NewListingIsOpenAndValid | proj2/commerce/auctions/views.py:91-94 | a created listing belongs to the acting user, starts at its starting bid, is open with no bidder, winner or watchers, and satisfies the listing invariant |
| AuctionRules.ActiveListings | proj2/commerce/auctions/views.py:19 | the index lists exactly the listings that are not closed, each once; the model lists them by increasing id, since the query fixes no order |
| AuctionRules.WatchedBy | proj2/commerce/auctions/views.py:207 | a watchlist lists exactly the listings whose watchers include the user |
| AuctionRules.CreatorOnlyCloses | proj2/commerce/auctions/views.py:115-126 | the creator's POST always closes the listing and never reaches the bid branch, so stores no bid |
| AuctionRules.CloseSetsWinner | proj2/commerce/auctions/views.py:118-125 | closing sets `is_closed`, makes the old leading bidder the winner, clears the lead, and keeps price, watchers and creator |
| AuctionRules.ReclosingWipesWinner | proj2/commerce/auctions/views.py:118-125 | closing does not check `is_closed`, so a second close overwrites the winner with nobody |
| AuctionRules.ClosedListingUnchanged | proj2/commerce/auctions/views.py:136-137 | a non-creator's POST to a closed listing changes nothing and stores no bid |
| AuctionRules.LowBidRejected | proj2/commerce/auctions/views.py:141-155 | a bid below the current price is rejected with the form's message; no bid is stored and the listing is unchanged |
| AuctionRules.BidStoredIff | proj2/commerce/auctions/views.py:141-150 | a bid row is stored exactly when a non-creator posts to an open listing a bid with an existing listing, `price >= current_price` and 5 digits; the row has the submitted bidder, listing and price |
| AuctionRules.StoredBidLeadsIffHigher | proj2/commerce/auctions/views.py:145-150 | a stored bid takes the lead, with the submitted bidder, exactly when strictly higher; an equal bid is stored and the listing is unchanged |
| AuctionRules.WatchAddRemove | proj2/commerce/auctions/views.py:190-195 | "add" puts the user among the watchers, "remove" takes it out, add-then-remove leaves the watchers minus that user, and nothing else changes |
| AuctionRules.ClearClosedEffect | proj2/commerce/auctions/views.py:199-202 | the watchlist GET empties the watchers of every closed listing, leaves every open listing as it was, and is idempotent |
| AuctionRules.WatchlistShowsOnlyOpen | proj2/commerce/auctions/views.py:199-207 | after that clearing, a user's watchlist lists open listings only |
| AuctionRules.StepKeepsValid | proj2/commerce/auctions/views.py:115-202 | every listing request keeps the listing invariant |
| AuctionRules.RunKeepsValid | proj2/commerce/auctions/views.py:115-202 | any sequence of listing requests keeps the listing invariant |
| AuctionRules.PriceNeverDecreases | proj2/commerce/auctions/views.py:147-148 | across any sequence of requests the current price never decreases |
| AuctionRules.ClosedStaysClosed | proj2/commerce/auctions/views.py:122-137 | no request reopens a closed listing; its price stays put once closed, and a valid closed listing never gains a leading bidder again |
| AuctionRules.PriceIsHighestStoredBid | proj2/commerce/auctions/views.py:145-150 | after any sequence of requests the current price is the highest of the starting price and every bid stored meanwhile |
| AuctionViews.Listing.constructor | proj2/commerce/auctions/views.py:91-94 | a new listing object holds the cleaned form fields, the acting user as creator and the starting bid as price |
| AuctionViews.Listing.Close | proj2/commerce/auctions/views.py:122-125 | assigns `is_closed`, `winner` and `current_bidder` as `CloseListing` says |
| AuctionViews.Listing.TakeLead | proj2/commerce/auctions/views.py:148-150 | assigns the new price and leading bidder, nothing else |
| AuctionViews.Listing.AddWatcher | proj2/commerce/auctions/views.py:191 | inserts the user into the watchers, nothing else |
| AuctionViews.Listing.RemoveWatcher | proj2/commerce/auctions/views.py:194 | deletes the user from the watchers, nothing else |
| AuctionViews.Listing.ClearWatchers | proj2/commerce/auctions/views.py:202 | empties the watchers, nothing else |
| AuctionViews.Auctions.Index | proj2/commerce/auctions/views.py:13-20 | the index holds exactly the ids of the listings that are not closed |
| AuctionViews.Auctions.Add | proj2/commerce/auctions/views.py:94 | saving stores the new listing under the next id and leaves every other listing and all bids and comments as they were |
| AuctionViews.Auctions.Create | proj2/commerce/auctions/views.py:83-99 | an invalid form changes nothing; a valid one appends a fresh listing equal to `NewListing` of the cleaned fields and the acting user |
| AuctionViews.Auctions.PostToListing | proj2/commerce/auctions/views.py:102-155 | a missing listing changes nothing; otherwise the listing becomes `ListingPost`'s next state, a stored bid is appended to the Bid rows, and no other listing changes |
| AuctionViews.Auctions.PostWatchlist | proj2/commerce/auctions/views.py:183-195 | the listing's watchers change as `WatchPost` says; a value other than "add"/"remove" gives no response and no change |
| AuctionViews.Auctions.VisitWatchlist | proj2/commerce/auctions/views.py:197-208 | a `watchlist` request with any method other than POST: the loop leaves every listing as `ClearIfClosed` of its old state, then returns the user's watchlist |
| AuctionViews.Auctions.PostComment | proj2/commerce/auctions/views.py:211-228 | an invalid comment or missing listing changes nothing; otherwise one comment by the acting user is appended, whether the listing is open or closed |
| NetworkModels.Serialize | proj4/network/network/models.py:30-34 | the post's user id, title and contents are returned unchanged |
| NetworkModels.SerializeFollowing | proj4/network/network/models.py:54-57 | `q` is listed exactly when a row says `p` follows `q`, and as many times as there are such rows |
| NetworkModels.SerializeFollowers | proj4/network/network/models.py:59-62 | `q` is listed exactly when a row says `q` follows `p`, and as many times as there are such rows |
| NetworkModels.FollowDuality | proj4/network/network/models.py:54-62 | `b` is in `a`'s following exactly when `a` is in `b`'s followers |
| NetworkModels.ProjectionsDistinct | proj4/network/network/models.py:54-62 | with at most one row per pair, neither list repeats an id |
| NetworkModels.FollowingCount | proj4/network/network/models.py:54-62 | with at most one row per pair, each list's length is the number of matching FollowUser rows and the number of distinct people in it |
| NetworkModels.FollowingRowCount | proj4/network/network/models.py:54-57 | with at most one row per pair, `len(serialize_following(p))` is the number of rows whose user is `p` |
| NetworkModels.FollowersRowCount | proj4/network/network/models.py:59-62 | with at most one row per pair, `len(serialize_followers(p))` is the number of rows whose profile is `p` |
| NetworkModels.SerializeLikes | proj4/network/network/models.py:80-82 | the likers are exactly the usernames of users with a Like row for the post |
| NetworkModels.LikeCount | proj4/network/network/models.py:80-82 | with at most one Like row per pair, the list holds one username per Like row for the post: its length is the number of those rows |
| NetworkModels.LikedByNameIffRow | proj4/network/network/views.py:246-256 | with distinct usernames, a user's name is among the likers exactly when that user has a Like row for the post |
| NetworkRules.ToggleFlips | proj4/network/network/views.py:192-197 | a toggle flips the presence of the toggled row and of no other row |
| NetworkRules.ToggleKeepsNoDup | proj4/network/network/views.py:192-196 | a toggle keeps at most one row per pair |
| NetworkRules.ToggleTwice | proj4/network/network/views.py:191-197 | toggling twice restores the same rows (the same list when the row was absent) |
| NetworkRules.RegisterCheck | proj4/network/network/views.py:56-76 | registration passes the checks exactly when username, email, password and confirmation are non-empty and the two passwords match; the first failing check's message is shown |
| NetworkRules.NewPostCheck | proj4/network/network/views.py:98-104 | a post passes exactly when title and contents are both non-empty |
| NetworkViews.Network.NewPost | proj4/network/network/views.py:94-110 | an empty field creates nothing; otherwise one post by the acting user is appended |
| NetworkViews.Network.FollowGet | proj4/network/network/views.py:159-188 | a profile naming no user is an error; otherwise both lists are returned, and `is_following` is present exactly for a signed-in user other than the profile, and is then row membership |
| NetworkViews.Network.FollowPut | proj4/network/network/views.py:159-197 | a profile naming no user changes nothing; an anonymous request then changes nothing either (its query fails); otherwise the (user, profile) row is toggled and the result is its new presence, with no self-follow check; every follow row keeps naming registered users |
| NetworkViews.FollowGetAgreesWithPut | proj4/network/network/views.py:164-197 | after a follow toggle, both lists reflect the state the toggle reported |
| NetworkViews.Network.EditGet | proj4/network/network/views.py:205-213 | the post is returned to its author only; anyone else gets the "not authorised" error |
| NetworkViews.Network.EditPost | proj4/network/network/views.py:205-228 | a non-author changes nothing; the author's title and contents replace the old ones exactly, with no emptiness check |
| NetworkViews.Network.LikeGet | proj4/network/network/views.py:236-248 | a missing post is an error; otherwise the count is the number of likers, which is the number of Like rows for the post, and `is_liked` is the acting user's Like row membership, false when anonymous |
| NetworkViews.Network.LikePut | proj4/network/network/views.py:236-264 | a missing post or anonymous user changes nothing; otherwise the (post, user) Like row is toggled and the result is its new presence |
| WikiForms.CleanNewPage | proj1/wiki/encyclopedia/forms.py:4-7 | a new page is valid exactly when its stripped title is non-empty and at most 32 characters and its stripped contents are non-empty |
| WikiForms.CleanEdit | proj1/wiki/encyclopedia/forms.py:10-12 | an edit carries only contents, valid exactly when non-empty after stripping |
| WikiViews.Matching | proj1/wiki/encyclopedia/views.py:58 | a listed entry is a result exactly when its lower-case form contains the lower-cased query |
| WikiViews.MatchingKeepsOrder | proj1/wiki/encyclopedia/views.py:58 | the results keep the order of the entry listing |
| WikiViews.StoredTitleBlocksCreate | proj1/wiki/encyclopedia/views.py:76-87 | once a title is stored, creating it again in any letter case counts as a duplicate |
| WikiViews.Wiki.View | proj1/wiki/encyclopedia/views.py:18-37 | the markdown stored under exactly that title, or the not-found error |
| WikiViews.Wiki.Search | proj1/wiki/encyclopedia/views.py:40-62 | an exact title shows that page; otherwise the results are sound, complete and in listing order |
| WikiViews.Wiki.Create | proj1/wiki/encyclopedia/views.py:65-92 | an invalid form or a title equal to a stored one ignoring case changes nothing; otherwise the page is stored under a new title and nothing else changes |
| WikiViews.Wiki.EditPrefill | proj1/wiki/encyclopedia/views.py:123-130 | the edit form starts with the stored markdown, or with nothing for a missing title |
| WikiViews.Wiki.Edit | proj1/wiki/encyclopedia/views.py:107-121 | valid contents replace the entry whole, creating it when the title has none |
| MailInbox.ReplySubject | proj3/mail/mail/static/mail/inbox.js:180-181 | "Re: " is prefixed exactly when the subject does not contain "Re:" anywhere; the result always contains it |
| MailInbox.ReplySubjectIdempotent | proj3/mail/mail/static/mail/inbox.js:180-181 | applying the subject rule to its own output changes nothing |
| MailInbox.QuotedBodyParts | proj3/mail/mail/static/mail/inbox.js:182 | the reply body is "On ", the timestamp, ", ", the sender, " wrote: " and the original body, in that order |
| MailInbox.ReplyPrefill | proj3/mail/mail/static/mail/inbox.js:179-182 | the reply goes to the original sender with the reply subject and the quoted body |
| MailInbox.ArchiveRequest | proj3/mail/mail/static/mail/inbox.js:193-195 | the archive button sends the opposite of the current `archived` |
| MailInbox.ArchiveLabel | proj3/mail/mail/static/mail/inbox.js:189 | the label is "Unarchive" exactly when the email is archived, "Archive" otherwise |
| MailInbox.ArchiveToggles | proj3/mail/mail/static/mail/inbox.js:189-194 | after the request the label flips, and a second press restores the flag |
| MailInbox.Heading | proj3/mail/mail/static/mail/inbox.js:69 | the heading is the mailbox name with its first character upper-cased and the rest unchanged |
| MailInbox.HeadingIdempotent | proj3/mail/mail/static/mail/inbox.js:69 | capitalising a heading again changes nothing |
| MailInbox.RowColour | proj3/mail/mail/static/mail/inbox.js:101-105 | a mailbox row is white exactly when the email is read, grey otherwise |

## Findings

| source | as written | input that shows it | evidently intended | confidence | as-written member | corrected member |
|---|---|---|---|---|---|---|
| proj2/commerce/auctions/models.py:34 | `MinValueValidator(0.01)` compares the decimal starting bid with the float 0.01, which is a little above one hundredth | a starting bid of 0.01 is refused with "Ensure this value is greater than or equal to 0.01." | 0.01 is accepted, as the message says | high; not executed | AuctionForms.OneCentStartingBidRefused | AuctionForms.CleanStartingBidIntended |

The listing views model the code as written: `CleanListingForm` and
`Auctions.Create` use `CleanStartingBid`. `CleanStartingBidIntended` is
the corrected check, and `StartingBidCheckDiffersOnlyAtOneCent` shows
that 0.01 is the only amount on which the two disagree. `ValidListing`
keeps the intended bound of 0.01, which every listing created by the
code also meets.

## Left out

- Authentication, sessions, login/logout and user creation: `actor` is a parameter (None when anonymous), and an authenticated user is assumed registered. The duplicate-username `IntegrityError` of `register` is not modelled; only its input checks are.
- Parsing of request bodies: prices arrive already as whole cents, JSON bodies as their fields, and missing POST keys (which raise in the source) are not modelled. A decimal with more than two decimal places is therefore not representable.
- Objects looked up by id that do not exist raise an uncaught `DoesNotExist` in the source (listing pages, watchlist and comment posts, post edits, and the follow profile looked up by username). An anonymous follow PUT queries FollowUser with the anonymous user, which raises an error the view does not catch; the model returns `AnonymousLookup` and changes nothing. The model returns an error value and changes nothing in those cases. The follow views look the profile up by username; here the profile is a user id.
- The hidden `bidder` of the bid form must name an existing user. Users are not a table here, so that check is not modelled; the hidden `listing` check is.
- `URLField` scheme completion and URL validation of `image_url`: the field is an optional string of at most 200 characters.
- Case folding and whitespace are ASCII only: Python's `lower()`/`strip()` and JavaScript's `toUpperCase()` also handle non-ASCII characters.
- Only the first failing check of a form is reported; the framework collects every error.
- `util.list_entries`, `get_entry` and `save_entry` are file I/O outside this model: the store is a map, and `list_entries` is a parameter that must list exactly the stored titles. A case-insensitive file system is not modelled.
- The order of query results: the index query `Listing.objects.exclude(is_closed=True)` and `user.watchlist.all()` have no `order_by` and `Listing` declares no default ordering, so the database's order is unspecified; `ActiveListings`, `WatchedBy` and `Auctions.Index` list ids in increasing order, which is the model's own choice and not a promise of the source.
- Markdown rendering, templates, `random_page`, query ordering (`order_by("-created")`), timestamps and the date formatting of `Post.serialize`.
- `Post.add_like` and `remove_like`: they use attributes the model does not have and are not reachable from the views.
- `Post.title`'s 128-character limit is not an invariant: neither `new_post` nor `edit` checks it, and the default database does not enforce it.
- Requests that only render or redirect and change nothing: `index`, `create` and `listing` with a method other than POST render a page; `comment` with another method redirects; `new_post` with another method renders its form; `register` with another method redirects a signed-in user to the index and renders its form for anyone else.
- `follow`, `edit` and `like` with a method they do not handle, and a `watchlist` POST naming neither "add" nor "remove", return no response; the model gives `NoResponse` for the last and leaves the others out. A `watchlist` request with any method other than POST runs the clearing branch, which `VisitWatchlist` models.
- All DOM and `fetch` plumbing of the mail client, and the client-side counters of the network scripts.
- Concurrent requests: each request runs alone here, so the read-compare-write race between two bids is not modelled.
