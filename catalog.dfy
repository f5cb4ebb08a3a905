/** The catalog reads of the server: the home-page listing of cards no user
    has bought or sold, and the lookup of one card by id. */
module Catalog {
  import opened Wrappers
  import opened Seqs
  import opened ObjectIds
  import opened Documents
  import opened Users

  function BoughtOf(u: UserDoc): seq<string> { u.bought }
  function SoldOf(u: UserDoc): seq<string> { u.sold }

  /** `users.flatMap(field)`. */
  function FlatMap(users: seq<UserDoc>, field: UserDoc -> seq<string>): (r: seq<string>)
    ensures forall id :: id in r <==> exists u :: u in users && id in field(u)
  {
    if users == [] then []
    else
      var users' := users[..|users| - 1];
      assert users == users' + [users[|users| - 1]];
      FlatMap(users', field) + field(users[|users| - 1])
  }

  /** The id appears in the user's bought or sold list. */
  predicate Listed(u: UserDoc, id: string) {
    id in u.bought || id in u.sold
  }

  /** Some user has bought or sold card `c`. */
  ghost predicate Owned(users: seq<UserDoc>, c: CatalogCard) {
    exists u, id :: u in users && Listed(u, id) && Canon(id) == c.id
  }

  /** The bought ids of all users followed by their sold ids. */
  function RemovedIds(users: seq<UserDoc>): (r: seq<string>)
    ensures forall id :: id in r <==> exists u :: u in users && Listed(u, id)
  {
    FlatMap(users, BoughtOf) + FlatMap(users, SoldOf)
  }

  function Unclaimed(removed: seq<string>): CatalogCard -> bool {
    c => !IsReferenced(removed, c)
  }

  /** GET /api/cards: `find({ _id: { $nin: removedIds.map(id => new ObjectId(id)) } })`.
      A malformed id in any user's bought or sold list makes the conversion
      throw (500). */
  function ListUnsold(users: seq<UserDoc>, cards: seq<CatalogCard>): (r: Result<seq<CatalogCard>>)
    ensures r.Success? <==> forall u, id :: u in users && Listed(u, id) ==> ValidId(id)
    ensures r.Failure? ==> r.status == ServerError
    ensures r.Success? ==> IsSubsequence(r.value, cards)
    ensures r.Success? ==> forall c :: c in r.value <==> c in cards && !Owned(users, c)
  {
    var removed := RemovedIds(users);
    if !AllValid(removed) then
      var i :| 0 <= i < |removed| && !ValidId(removed[i]);
      assert removed[i] in removed;
      var u :| u in users && Listed(u, removed[i]);
      Failure(ServerError)
    else
      FilterIsSubsequence(cards, Unclaimed(removed));
      var unsold := Filter(cards, Unclaimed(removed));
      assert forall c :: IsReferenced(removed, c) <==> Owned(users, c);
      assert forall u, id :: u in users && Listed(u, id) ==> ValidId(id) by {
        forall u, id | u in users && Listed(u, id) ensures ValidId(id) {
          assert id in removed;
          var k :| 0 <= k < |removed| && removed[k] == id;
        }
      }
      Success(unsold)
  }

  /** Once a user has bought a card, the unsold listing no longer shows it. */
  lemma BoughtCardNotUnsold(users: seq<UserDoc>, i: nat, cardId: string, cards: seq<CatalogCard>)
    requires i < |users|
    requires ListUnsold(users[i := AfterBuy(users[i], cardId)], cards).Success?
    ensures forall c :: c in ListUnsold(users[i := AfterBuy(users[i], cardId)], cards).value ==>
      c.id != Canon(cardId)
  {
    var users' := users[i := AfterBuy(users[i], cardId)];
    assert users'[i] in users' && Listed(users'[i], cardId);
  }

  /** Once a user has sold a card, the unsold listing no longer shows it. */
  lemma SoldCardNotUnsold(users: seq<UserDoc>, i: nat, cardId: string, cards: seq<CatalogCard>)
    requires i < |users|
    requires ListUnsold(users[i := AfterSell(users[i], cardId)], cards).Success?
    ensures forall c :: c in ListUnsold(users[i := AfterSell(users[i], cardId)], cards).value ==>
      c.id != Canon(cardId)
  {
    var users' := users[i := AfterSell(users[i], cardId)];
    assert users'[i] in users' && Listed(users'[i], cardId);
  }

  /** GET /api/cards/:id: a malformed id gives 400 (checked with
      `ObjectId.isValid` before any lookup), an id no card has gives 404. */
  function GetCard(cards: seq<CatalogCard>, cardId: string): (r: Result<CatalogCard>)
    ensures r.Failure? ==> (r.status == BadRequest <==> !ValidId(cardId))
    ensures r.Failure? ==> (r.status == NotFound <==>
      ValidId(cardId) && forall c :: c in cards ==> c.id != Canon(cardId))
    ensures r.Failure? ==> r.status == BadRequest || r.status == NotFound
    ensures r.Success? ==> ValidId(cardId) && r.value in cards && r.value.id == Canon(cardId)
  {
    if !ValidId(cardId) then Failure(BadRequest)
    else match FindCard(cards, cardId)
      case None => Failure(NotFound)
      case Some(c) => Success(c)
  }
}
