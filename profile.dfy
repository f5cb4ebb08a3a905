/** GET /api/profile: the user's three lists resolved to card documents, and
    the totals computed over the bought and sold cards. */
module Profile {
  import opened Wrappers
  import opened Seqs
  import opened ObjectIds
  import opened Documents
  import opened Users

  datatype ProfileView = ProfileView(
    username: string,
    email: string,
    wishlist: seq<CatalogCard>,
    bought: seq<CatalogCard>,
    sold: seq<CatalogCard>,
    totalCards: nat,
    totalValue: real,
    memberSince: int)

  function ReferencedBy(ids: seq<string>): CatalogCard -> bool {
    c => IsReferenced(ids, c)
  }

  /** `find({ _id: { $in: ids } })`: the cards, in store order and each
      once, that some id of the list denotes. Ids that denote no card are
      dropped without error. */
  function Resolve(ids: seq<string>, cards: seq<CatalogCard>): (r: seq<CatalogCard>)
    ensures forall c :: c in r <==> c in cards && IsReferenced(ids, c)
    ensures IsSubsequence(r, cards)
  {
    FilterIsSubsequence(cards, ReferencedBy(ids));
    Filter(cards, ReferencedBy(ids))
  }

  /** `reduce((sum, card) => sum + card.price, 0)`, a left fold. */
  function SumPrices(cs: seq<CatalogCard>): (r: real)
    ensures (forall i :: 0 <= i < |cs| ==> cs[i].price >= 0.0) ==> r >= 0.0
    ensures (forall i :: 0 <= i < |cs| ==> cs[i].price >= 1.0) ==> r >= |cs| as real
  {
    if cs == [] then 0.0 else SumPrices(cs[..|cs| - 1]) + cs[|cs| - 1].price
  }

  lemma {:induction false} SumPricesAppend(a: seq<CatalogCard>, b: seq<CatalogCard>)
    ensures SumPrices(a + b) == SumPrices(a) + SumPrices(b)
    decreases |b|
  {
    if b == [] {
      assert a + b == a;
    } else {
      var b' := b[..|b| - 1];
      assert (a + b)[..|a + b| - 1] == a + b';
      assert (a + b)[|a + b| - 1] == b[|b| - 1];
      SumPricesAppend(a, b');
    }
  }

  /** The profile handler. `now` and `yearOf` stand for the clock and for
      `getFullYear`. A user that does not exist gives 404; a malformed id in
      any of the three lists makes `new ObjectId` throw (500). */
  function GetProfile(user: Option<UserDoc>, cards: seq<CatalogCard>, now: int, yearOf: int -> int)
    : (r: Result<ProfileView>)
    ensures user.None? ==> r == Failure(NotFound)
    ensures user.Some? ==> (r.Success? <==>
      AllValid(user.value.wishlist) && AllValid(user.value.bought) && AllValid(user.value.sold))
    ensures user.Some? && r.Failure? ==> r.status == ServerError
    ensures r.Success? ==> (user.Some?
      && r.value.username == user.value.username && r.value.email == user.value.email
      && r.value.wishlist == Resolve(user.value.wishlist, cards)
      && r.value.bought == Resolve(user.value.bought, cards)
      && r.value.sold == Resolve(user.value.sold, cards))
    ensures r.Success? ==> r.value.totalCards == |r.value.bought| + |r.value.sold|
    ensures r.Success? ==> r.value.totalValue == SumPrices(r.value.bought) + SumPrices(r.value.sold)
    ensures r.Success? ==> (r.value.memberSince ==
      yearOf(if user.value.createdAt.Some? then user.value.createdAt.value else now))
  {
    match user
    case None => Failure(NotFound)
    case Some(u) =>
      if !(AllValid(u.wishlist) && AllValid(u.bought) && AllValid(u.sold)) then Failure(ServerError)
      else
        var wishlist := Resolve(u.wishlist, cards);
        var bought := Resolve(u.bought, cards);
        var sold := Resolve(u.sold, cards);
        SumPricesAppend(bought, sold);
        Success(ProfileView(
          u.username, u.email, wishlist, bought, sold,
          |bought| + |sold|,
          SumPrices(bought + sold),
          yearOf(if u.createdAt.Some? then u.createdAt.value else now)))
  }

  /** An id that denotes no card changes nothing in the resolved list. */
  lemma DanglingIdIgnored(ids: seq<string>, id: string, cards: seq<CatalogCard>)
    requires forall c :: c in cards ==> c.id != Canon(id)
    ensures Resolve(ids + [id], cards) == Resolve(ids, cards)
  {
    forall c | c in cards
      ensures ReferencedBy(ids + [id])(c) == ReferencedBy(ids)(c)
    {
      if IsReferenced(ids + [id], c) {
        var x :| x in ids + [id] && Canon(x) == c.id;
        assert x in ids;
      }
    }
    FilterCongruent(cards, ReferencedBy(ids + [id]), ReferencedBy(ids));
  }

  /** A card listed twice is resolved, and counted, once. */
  lemma RepeatedIdCountedOnce(ids: seq<string>, id: string, cards: seq<CatalogCard>)
    requires id in ids
    ensures Resolve(ids + [id], cards) == Resolve(ids, cards)
  {
    forall c | c in cards
      ensures ReferencedBy(ids + [id])(c) == ReferencedBy(ids)(c)
    {
      if IsReferenced(ids + [id], c) {
        var x :| x in ids + [id] && Canon(x) == c.id;
        assert x in ids;
      }
    }
    FilterCongruent(cards, ReferencedBy(ids + [id]), ReferencedBy(ids));
  }

  /** After a successful buy, the profile lists the bought card under
      `bought`; when all ids are written in canonical (lower-case) form, it
      is no longer under `wishlist`. */
  lemma ProfileAfterBuy(u: UserDoc, cardId: string, cards: seq<CatalogCard>, now: int, yearOf: int -> int)
    requires CardCheck(cards, cardId) == Ok
    requires AllValid(u.wishlist) && AllValid(u.bought) && AllValid(u.sold)
    ensures var r := GetProfile(Some(AfterBuy(u, cardId)), cards, now, yearOf);
      r.Success? && FindCard(cards, cardId).Some? &&
      FindCard(cards, cardId).value in r.value.bought &&
      (IsCanonical(cardId) && (forall w :: w in u.wishlist ==> IsCanonical(w)) ==>
        FindCard(cards, cardId).value !in r.value.wishlist)
  {
    var u' := AfterBuy(u, cardId);
    assert AllValid(u'.bought) by {
      forall i | 0 <= i < |u'.bought| ensures ValidId(u'.bought[i]) {
        assert u'.bought[i] in u'.bought;
        if u'.bought[i] != cardId {
          var k :| 0 <= k < |u.bought| && u.bought[k] == u'.bought[i];
        }
      }
    }
    assert AllValid(u'.wishlist) by {
      forall i | 0 <= i < |u'.wishlist| ensures ValidId(u'.wishlist[i]) {
        assert u'.wishlist[i] in u'.wishlist;
        var k :| 0 <= k < |u.wishlist| && u.wishlist[k] == u'.wishlist[i];
      }
    }
    var c := FindCard(cards, cardId).value;
    assert cardId in u'.bought;
    assert IsReferenced(u'.bought, c);
    if IsCanonical(cardId) && (forall w :: w in u.wishlist ==> IsCanonical(w)) {
      forall w | w in u'.wishlist ensures Canon(w) != c.id {
        assert w != cardId && w in u.wishlist;
      }
    }
  }
}
