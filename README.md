# CardStox backend, modelled in Dafny

CardStox is a small marketplace backend for trading cards. Users register,
keep three lists of card ids (wishlist, bought, sold), browse a card catalog,
and a "market simulation" nudges every card's price by a random step. This
project models the logic inside its request handlers, with the document store
replaced by in-memory sequences:

- the per-user list endpoints (buy, sell, wishlist add/remove), each one
  single-document update built from the store's `$addToSet` and `$pull`
  operators (`mongo_arrays.dfy`, `users.dfy`);
- registration's field and duplicate checks (`users.dfy`);
- the profile view with its `totalCards` and `totalValue` (`profile.dfy`);
- the "unsold" home listing and the lookup of one card (`catalog.dfy`);
- the "popular" listing: a stable sort of each price history by date, a
  backward scan for the price as of a cutoff, and the 20-point threshold
  (`popularity.dfy`);
- the card router's creation and price update on a card object whose
  history is a list of bare prices (`card_routes.dfy`);
- the market simulation loop over card objects (`market.dfy`).

Identifiers are strings; `ValidId` (24 hexadecimal digits) stands for what
`new ObjectId(s)` accepts, and `Canon` for the case-insensitive parsing of
the hex digits (`object_ids.dfy`). Handler outcomes are a `Status`
(200, 400, 404, 500) or a `Result`, whose `Success` stands for
registration's 201 (`wrappers.dfy`). Reads such as
`find().toArray()` give plain values (`CatalogCard`, `UserDoc` in
`documents.dfy`); the user document that the list endpoints update in place
is the class `Users.User`, whose `Doc()` view is tied to the pure transition
functions `AfterBuy`, `AfterSell`, `AfterWishlistAdd`, `AfterWishlistRemove`.

Behaviour of the code worth knowing; the lemma named in each item proves it:

- The lists are not kept disjoint: wishlist add ignores bought and sold
  (`Users.WishlistAddBreaksDisjointness`), and sell, unlike buy, does not
  pull the card from the wishlist (`Users.SellBreaksDisjointness`).
- `totalCards` counts resolved card documents, not list entries: an id with
  no card is dropped and an id listed twice counts once
  (`Profile.DanglingIdIgnored`, `Profile.RepeatedIdCountedOnce`).
- A malformed id stored in any user's bought or sold list makes the unsold
  listing fail with 500 for everyone (`Catalog.ListUnsold`).
- The simulator's step is drawn from [-5, 5), the upper end excluded
  (`Market.StepBounded`).

## Model

| member | source | states |
|---|---|---|
| `MongoArrays.AddToSet` | server.js:154 | `$addToSet`: the result holds exactly the old elements plus `x`, extends the old array, changes nothing if `x` was present, and keeps an array duplicate-free |
| `MongoArrays.AddToSetIdempotent` | server.js:195 | adding the same id twice is the same as adding it once |
| `MongoArrays.Pull` | server.js:154 | `$pull`: every occurrence of `x` is removed and every other element keeps its multiplicity |
| `MongoArrays.PullAbsent` | server.js:212 | pulling an id that is not there leaves the array unchanged |
| `MongoArrays.PullIdempotent` | server.js:212 | pulling twice is the same as pulling once |
| `MongoArrays.PullIsSubsequence` | server.js:172 | pulling keeps the remaining ids in their order |
| `MongoArrays.PullNoDups` | server.js:172 | pulling introduces no duplicates |
| `ObjectIds.ValidId` | server.js:279-284 | `ObjectId.isValid`: an accepted id has 24 characters, each a hexadecimal digit in either case |
| `ObjectIds.Canon` | server.js:146 | an id's string form has the same length, is lower-case when the id is well-formed, and is unchanged when already canonical |
| `ObjectIds.CanonIdempotent` | server.js:230 | rendering a parsed id and parsing it again gives the same id |
| `Seqs.Filter` | server.js:247 | `filter` keeps exactly the elements satisfying the test |
| `Seqs.FilterMultiplicity` | server.js:247 | `filter` keeps each passing element as often as it occurs and drops every failing one |
| `Seqs.FilterIsSubsequence` | server.js:247-270 | `filter` preserves the order of what it keeps |
| `Documents.FindCard` | server.js:146 | `findOne` by id finds nothing exactly when no card has the id, otherwise the first card in store order that has it |
| `Documents.CardCheck` | server.js:145-149 | the card check gives 500 exactly for a malformed id and 200 exactly when a card with the id exists, 404 otherwise |
| `Users.AfterBuy` | server.js:152-155 | after a buy the card is in `bought` (added at most once, nothing changed if already there, order kept), absent from `wishlist`, `sold` and the account fields unchanged |
| `Users.AfterSell` | server.js:170-173 | after a sell the card is absent from `bought`, in `sold` (added at most once, nothing changed if already there), `wishlist` unchanged; ownership is not checked |
| `Users.AfterWishlistAdd` | server.js:193-196 | wishlist add appends the id unless present (then the wishlist is unchanged) and leaves `bought` and `sold` untouched |
| `Users.AfterWishlistRemove` | server.js:210-213 | wishlist remove deletes every occurrence, keeps the order of the rest and touches only `wishlist` |
| `Users.WishlistRemoveAbsent` | server.js:210-215 | removing an id that is not on the wishlist changes nothing |
| `Users.BuyIdempotent` | server.js:152-155 | buying a card twice is the same as buying it once |
| `Users.SellIdempotent` | server.js:170-173 | selling twice is the same as selling once |
| `Users.WishlistAddIdempotent` | server.js:193-196 | wishlist add is idempotent |
| `Users.WishlistRemoveIdempotent` | server.js:210-213 | wishlist remove is idempotent |
| `Users.BuyThenSell` | server.js:152-173 | a buy followed by a sell leaves the card only in `sold` |
| `Users.SellBreaksDisjointness` | server.js:170-173 | selling a wishlisted card leaves it on the wishlist and in `sold`: sell does not `$pull` the wishlist |
| `Users.BuyKeepsDisjoint` | server.js:152-155 | a buy keeps the wishlist disjoint from bought and sold |
| `Users.WishlistAddBreaksDisjointness` | server.js:193-196 | wishlist add of an owned card puts it on both lists: the code does not keep them disjoint |
| `Users.Clashes` | server.js:43-45 | the `$or` lookup finds a user exactly when some user has the email or the username |
| `Users.Register` | server.js:39-59 | registration succeeds exactly when all three fields are non-empty and neither username nor email is taken; otherwise 400; on success one user with the hashed password, creation time and empty lists is appended |
| `Users.RegisterEmailTwice` | server.js:43-48 | registering an email that was just registered fails with 400 |
| `Users.RegisterUsernameTwice` | server.js:43-48 | registering a username that was just registered fails with 400 |
| `Users.RegisterKeepsAccountsUnique` | server.js:43-59 | registration keeps usernames and emails unique across users |
| `Users.User.Buy` | server.js:140-161 | the buy endpoint answers the card check's status and applies `AfterBuy` exactly when it is 200, leaving the user unchanged otherwise |
| `Users.User.Sell` | server.js:164-178 | the sell endpoint always answers 200 and applies `AfterSell` |
| `Users.User.AddToWishlist` | server.js:181-202 | the wishlist endpoint answers the card check's status and applies `AfterWishlistAdd` exactly when it is 200 |
| `Users.User.RemoveFromWishlist` | server.js:205-219 | the wishlist removal always answers 200 and applies `AfterWishlistRemove` |
| `Profile.Resolve` | server.js:108-113 | resolving a list of ids gives exactly the cards some id denotes, in store order |
| `Profile.SumPrices` | server.js:122 | the `reduce` from 0 over non-negative prices is non-negative, and over prices of at least 1 is at least the number of cards |
| `Profile.SumPricesAppend` | server.js:122 | the sum over bought followed by sold is the sum over bought plus the sum over sold |
| `Profile.GetProfile` | server.js:102-133 | 404 for a missing user, 500 exactly when some listed id is malformed; otherwise the resolved lists, `totalCards` = resolved bought + resolved sold, `totalValue` = their price sums, `memberSince` from the creation date or now |
| `Profile.DanglingIdIgnored` | server.js:111-112 | an id that denotes no card does not change the resolved list |
| `Profile.RepeatedIdCountedOnce` | server.js:112-130 | a card listed twice is resolved and counted once |
| `Profile.ProfileAfterBuy` | server.js:115-130 | after a successful buy the profile shows the card under `bought`, and with canonical ids not under `wishlist` |
| `Catalog.FlatMap` | server.js:226-227 | `flatMap` over users holds exactly the ids some user lists |
| `Catalog.RemovedIds` | server.js:226-228 | the removed ids are exactly those in some user's bought or sold list |
| `Catalog.ListUnsold` | server.js:222-236 | 500 exactly when a listed id is malformed; otherwise exactly the cards no user has bought or sold, in store order |
| `Catalog.BoughtCardNotUnsold` | server.js:225-231 | once any user has bought a card, the unsold listing omits it |
| `Catalog.SoldCardNotUnsold` | server.js:225-231 | once any user has sold a card, the unsold listing omits it |
| `Catalog.GetCard` | server.js:279-291 | 400 exactly for a malformed id, 404 exactly when no card has it, otherwise a card with that id |
| `Popularity.Insert` | server.js:253 | inserting into a date-sorted history keeps it sorted and adds exactly one sample |
| `Popularity.SortByDate` | server.js:251-253 | the sorted history is ordered by date and a permutation of the stored one |
| `Popularity.SortIsStable` | server.js:253 | the sort is stable: samples of one date keep their stored order |
| `Popularity.LatestIsNewest` | server.js:255 | the latest price comes from a sample of the history with the newest date |
| `Popularity.LatestIsStoredLast` | server.js:255 | among samples of the newest date, the latest price is that of the one stored last |
| `Popularity.LastAtOrBefore` | server.js:259-264 | the scan finds no index exactly when every sample is after the cutoff; otherwise an index at or before the cutoff with every later sample after it |
| `Popularity.BaselinePrice` | server.js:258-267 | the baseline is the price of some sample that is either at or before the cutoff with every later sample after it, or the earliest sample when every sample is after the cutoff |
| `Popularity.BaselineIsNearest` | server.js:258-264 | in a sorted history the baseline sample is the newest one not after the cutoff |
| `Popularity.FindBaseline` | server.js:258-267 | the backward loop with `break` returns the price of the last sample at or before the cutoff, or of the earliest sample if none is |
| `Popularity.IsPopular` | server.js:247-270 | a card can be popular only when it has a history of at least two samples |
| `Popularity.FewSamplesNeverPopular` | server.js:248 | a missing history or one with fewer than two samples is never popular |
| `Popularity.CheckPopular` | server.js:247-270 | the filter callback answers exactly `IsPopular`: latest minus baseline at least 20 |
| `Popularity.ListPopular` | server.js:245-272 | the popular listing holds exactly the popular cards, as an order-preserving subsequence of the catalog |
| `Popularity.PopularExample` | server.js:269 | 10 twenty days ago and 35 yesterday is popular, in either stored order |
| `Popularity.UnpopularExample` | server.js:269 | 10 twenty days ago and 25 yesterday is not popular |
| `CardRoutes.Card.Create` | routes/cards.js:11-15 | a created card carries the body's fields, the caller as owner, and the history `[price]` |
| `CardRoutes.Card.UpdatePrice` | routes/cards.js:22-28 | a price update sets the price, appends it to the history keeping earlier entries in place, keeps last-of-history = price, and changes no other field |
| `Market.NextPrice` | routes/market.js:9 | `Math.max(1, price + change)`: at least 1, at least `price + change`, and equal to one of them |
| `Market.StepBounded` | routes/market.js:8-9 | from a price of at least 1, a step moves the price by at most 5 down and less than 5 up |
| `Market.Simulate` | routes/market.js:5-14 | cards are processed in order: each processed card's price becomes `NextPrice` and its history grows by exactly that price; later cards and all other fields are untouched; a failed save stops the run; after a full run every price is at least 1 and equals the last history entry |

## Left out

- Login, the token middleware and password hashing (`jsonwebtoken`, `bcrypt`): third-party cryptography. Registration takes the hash function as a parameter.
- The database connection module and the Express wiring (routing, CORS, JSON bodies, `listen`).
- Create, patch and delete of cards in server.js and the plain read routes of the card router: direct pass-through to the store with no logic of their own.
- Concurrency between requests; `Promise.all` in the profile is evaluated sequentially.
- `Users.User.Buy`: the user is an existing document; a token whose user id is malformed (500) or matches no document (the update matches nothing and the answer is still 200) is not modelled.
- `Profile.GetProfile`: prices are exact reals, not IEEE doubles, so `totalValue` carries no rounding error; prices are already numbers; the `parseFloat(card.price) || 0` coercion of a missing or non-numeric price to 0 is not modelled, and `getFullYear` and the clock are parameters.
- `ObjectIds.Canon`: only the 24-hex-digit form of an object id is modelled; the 12-byte-string form the driver also accepts is treated as malformed.
- `Popularity.CheckPopular`: prices are exact reals, not IEEE doubles, so a rise the source computes as just under 20 (32.05 - 12.05 gives 19.999999999999996) counts as 20 here and is popular; dates are integer timestamps; invalid dates (NaN comparisons) and the local-time `setDate` arithmetic of the cutoff are not modelled: the cutoff is a parameter.
- `Market.Simulate`: prices are exact reals, not IEEE doubles; the random draws and the outcome of each save are parameters; the unhandled rejection after a failed save is not modelled beyond stopping the loop.
- `CardRoutes.Card.UpdatePrice`: a price update for an id with no card (the handler throws on `null`) and a creation body without a numeric price are not modelled.
- Card document model: the card router and the market router use `Card` as a document model with `find`, `findById` and `save`; in the repository models/Card.js exports only a plain schema object and server.js mounts neither router, so those routes would fail as written. The model gives `Card` the document-model behaviour the routers evidently expect.
