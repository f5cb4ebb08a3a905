/** The two kinds of stored documents, as the handlers of the server read
    them (`find(...).toArray()` hands back plain values), and the by-id
    lookup of a card. */
module Documents {
  import opened Wrappers
  import opened ObjectIds

  /** One dated entry of a card's `priceHistory`; dates are timestamps. */
  datatype Sample = Sample(date: int, price: real)

  /** A card document. The history may be missing from a document. */
  datatype CatalogCard = CatalogCard(
    id: string,
    name: string,
    game: string,
    setLabel: string,
    price: real,
    priceHistory: Option<seq<Sample>>)

  /** A user document; the three lists hold card ids as strings. */
  datatype UserDoc = UserDoc(
    username: string,
    email: string,
    password: string,
    createdAt: Option<int>,
    wishlist: seq<string>,
    bought: seq<string>,
    sold: seq<string>)

  /** `findOne({ _id: new ObjectId(cardId) })`: the first card, in store
      order, whose id is the one `cardId` denotes. */
  function FindCard(cards: seq<CatalogCard>, cardId: string): (r: Option<CatalogCard>)
    ensures r.None? <==> forall c :: c in cards ==> c.id != Canon(cardId)
    ensures r.Some? ==> r.value.id == Canon(cardId)
    ensures r.Some? ==> exists i :: (0 <= i < |cards| && cards[i] == r.value &&
      forall j :: 0 <= j < i ==> cards[j].id != Canon(cardId))
  {
    if cards == [] then None
    else if cards[0].id == Canon(cardId) then Some(cards[0])
    else
      var r := FindCard(cards[1..], cardId);
      assert forall c :: c in cards ==> c == cards[0] || c in cards[1..];
      assert r.Some? ==> exists i :: (0 <= i < |cards| - 1 && cards[1..][i] == r.value &&
        forall j :: 0 <= j < i ==> cards[1..][j].id != Canon(cardId));
      r
  }

  /** Some id of `ids` denotes card `c`. */
  predicate IsReferenced(ids: seq<string>, c: CatalogCard) {
    exists id :: id in ids && Canon(id) == c.id
  }

  /** The status of the card check that opens the buy and wishlist
      endpoints: a malformed id makes `new ObjectId` throw (500), an id no
      card has gives 404. */
  function CardCheck(cards: seq<CatalogCard>, cardId: string): (s: Status)
    ensures s == Ok || s == NotFound || s == ServerError
    ensures s == ServerError <==> !ValidId(cardId)
    ensures s == Ok <==> ValidId(cardId) && exists c :: c in cards && c.id == Canon(cardId)
  {
    if !ValidId(cardId) then ServerError
    else if FindCard(cards, cardId).None? then NotFound
    else Ok
  }
}
