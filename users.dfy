/** The user directory of the server: registration, and the four endpoints
    that move card ids between a user's wishlist, bought and sold lists. Each
    of those endpoints is one single-document update built from `$addToSet`
    and `$pull`; the functions below give the document after the update, and
    the class `User` applies them in place. */
module Users {
  import opened Wrappers
  import opened Seqs
  import opened MongoArrays
  import opened ObjectIds
  import opened Documents

  /** The fields no list update touches. */
  predicate SameAccount(u: UserDoc, v: UserDoc) {
    u.username == v.username && u.email == v.email &&
    u.password == v.password && u.createdAt == v.createdAt
  }

  /** Buy: `$addToSet: { bought: cardId }, $pull: { wishlist: cardId }`. */
  function AfterBuy(u: UserDoc, cardId: string): (r: UserDoc)
    ensures SameAccount(u, r) && r.sold == u.sold
    ensures cardId in r.bought && cardId !in r.wishlist
    ensures forall x :: x in r.bought <==> x in u.bought || x == cardId
    ensures forall x :: x != cardId ==> (x in r.wishlist <==> x in u.wishlist)
    ensures u.bought <= r.bought && |r.bought| <= |u.bought| + 1
    ensures cardId in u.bought ==> r.bought == u.bought
    ensures IsSubsequence(r.wishlist, u.wishlist)
    ensures NoDups(u.bought) ==> NoDups(r.bought)
  {
    PullIsSubsequence(u.wishlist, cardId);
    u.(bought := AddToSet(u.bought, cardId), wishlist := Pull(u.wishlist, cardId))
  }

  /** Sell: `$pull: { bought: cardId }, $addToSet: { sold: cardId }`. Prior
      ownership is not consulted. */
  function AfterSell(u: UserDoc, cardId: string): (r: UserDoc)
    ensures SameAccount(u, r) && r.wishlist == u.wishlist
    ensures cardId !in r.bought && cardId in r.sold
    ensures forall x :: x != cardId ==> (x in r.bought <==> x in u.bought)
    ensures forall x :: x in r.sold <==> x in u.sold || x == cardId
    ensures IsSubsequence(r.bought, u.bought)
    ensures u.sold <= r.sold && |r.sold| <= |u.sold| + 1
    ensures cardId in u.sold ==> r.sold == u.sold
    ensures NoDups(u.sold) ==> NoDups(r.sold)
  {
    PullIsSubsequence(u.bought, cardId);
    u.(bought := Pull(u.bought, cardId), sold := AddToSet(u.sold, cardId))
  }

  /** Wishlist add: `$addToSet: { wishlist: cardId }`; bought and sold are
      not consulted. */
  function AfterWishlistAdd(u: UserDoc, cardId: string): (r: UserDoc)
    ensures SameAccount(u, r) && r.bought == u.bought && r.sold == u.sold
    ensures forall x :: x in r.wishlist <==> x in u.wishlist || x == cardId
    ensures u.wishlist <= r.wishlist && |r.wishlist| <= |u.wishlist| + 1
    ensures cardId in u.wishlist ==> r.wishlist == u.wishlist
    ensures NoDups(u.wishlist) ==> NoDups(r.wishlist)
  {
    u.(wishlist := AddToSet(u.wishlist, cardId))
  }

  /** Wishlist remove: `$pull: { wishlist: cardId }`. */
  function AfterWishlistRemove(u: UserDoc, cardId: string): (r: UserDoc)
    ensures SameAccount(u, r) && r.bought == u.bought && r.sold == u.sold
    ensures multiset(r.wishlist) == multiset(u.wishlist)[cardId := 0]
    ensures IsSubsequence(r.wishlist, u.wishlist)
  {
    PullIsSubsequence(u.wishlist, cardId);
    u.(wishlist := Pull(u.wishlist, cardId))
  }

  /** Removing a card that is not on the wishlist changes nothing (and
      still succeeds). */
  lemma WishlistRemoveAbsent(u: UserDoc, cardId: string)
    requires cardId !in u.wishlist
    ensures AfterWishlistRemove(u, cardId) == u
  {
    PullAbsent(u.wishlist, cardId);
  }

  lemma BuyIdempotent(u: UserDoc, cardId: string)
    ensures AfterBuy(AfterBuy(u, cardId), cardId) == AfterBuy(u, cardId)
  {
    PullIdempotent(u.wishlist, cardId);
  }

  lemma SellIdempotent(u: UserDoc, cardId: string)
    ensures AfterSell(AfterSell(u, cardId), cardId) == AfterSell(u, cardId)
  {
    PullIdempotent(u.bought, cardId);
  }

  lemma WishlistAddIdempotent(u: UserDoc, cardId: string)
    ensures AfterWishlistAdd(AfterWishlistAdd(u, cardId), cardId) == AfterWishlistAdd(u, cardId)
  {
  }

  lemma WishlistRemoveIdempotent(u: UserDoc, cardId: string)
    ensures AfterWishlistRemove(AfterWishlistRemove(u, cardId), cardId) == AfterWishlistRemove(u, cardId)
  {
    PullIdempotent(u.wishlist, cardId);
  }

  /** Buying and then selling a card leaves it in `sold` only. */
  lemma BuyThenSell(u: UserDoc, cardId: string)
    ensures var r := AfterSell(AfterBuy(u, cardId), cardId);
      cardId in r.sold && cardId !in r.bought && cardId !in r.wishlist
  {
  }

  /** A card id is in the wishlist or in bought/sold, never both. The code
      does not keep this: wishlist add ignores bought and sold, and sell does
      not pull the wishlist. */
  predicate ListsDisjoint(u: UserDoc) {
    forall x :: x in u.wishlist ==> x !in u.bought && x !in u.sold
  }

  lemma WishlistAddBreaksDisjointness(u: UserDoc, cardId: string)
    requires cardId in u.bought
    ensures !ListsDisjoint(AfterWishlistAdd(u, cardId))
  {
    assert cardId in AfterWishlistAdd(u, cardId).wishlist;
  }

  /** Sell does not pull the card from the wishlist either, so selling a
      wishlisted card leaves it on the wishlist and in `sold`. */
  lemma SellBreaksDisjointness(u: UserDoc, cardId: string)
    requires cardId in u.wishlist
    ensures !ListsDisjoint(AfterSell(u, cardId))
  {
    assert cardId in AfterSell(u, cardId).wishlist;
  }

  /** Buying restores disjointness for the bought card. */
  lemma BuyKeepsDisjoint(u: UserDoc, cardId: string)
    requires ListsDisjoint(u)
    ensures ListsDisjoint(AfterBuy(u, cardId))
  {
  }

  /** `findOne({ $or: [{ email }, { username }] })` finds a user: a scan
      of the collection for a document with either the email or the
      username. */
  predicate Clashes(users: seq<UserDoc>, username: string, email: string)
    ensures Clashes(users, username, email) <==>
      exists u :: u in users && (u.email == email || u.username == username)
  {
    users != [] &&
    (users[0].email == email || users[0].username == username ||
     Clashes(users[1..], username, email))
  }

  /** No two users share a username or an email. */
  predicate AccountsUnique(users: seq<UserDoc>) {
    forall i, j :: 0 <= i < j < |users| ==>
      users[i].email != users[j].email && users[i].username != users[j].username
  }

  /** Registration: a missing (empty) field or an existing username or
      email gives 400; otherwise a user with the hashed password, the
      creation time and three empty lists is inserted. Hashing is opaque. */
  function Register(users: seq<UserDoc>, username: string, email: string, password: string,
                    hash: string -> string, now: int): (r: Result<seq<UserDoc>>)
    ensures r.Success? <==>
      username != "" && email != "" && password != "" && !Clashes(users, username, email)
    ensures r.Failure? ==> r.status == BadRequest
    ensures r.Success? ==> |r.value| == |users| + 1 && r.value[..|users|] == users
    ensures r.Success? ==>
      r.value[|users|] == UserDoc(username, email, hash(password), Some(now), [], [], [])
  {
    if username == "" || email == "" || password == "" then Failure(BadRequest)
    else if Clashes(users, username, email) then Failure(BadRequest)
    else Success(users + [UserDoc(username, email, hash(password), Some(now), [], [], [])])
  }

  /** Once an email is registered, registering it again fails. */
  lemma RegisterEmailTwice(users: seq<UserDoc>, username: string, email: string, password: string,
                           username2: string, password2: string, hash: string -> string, now: int, now2: int)
    requires Register(users, username, email, password, hash, now).Success?
    ensures Register(Register(users, username, email, password, hash, now).value,
                     username2, email, password2, hash, now2) == Failure(BadRequest)
  {
    var users' := Register(users, username, email, password, hash, now).value;
    assert users'[|users|] in users';
  }

  /** Once a username is registered, registering it again fails. */
  lemma RegisterUsernameTwice(users: seq<UserDoc>, username: string, email: string, password: string,
                              email2: string, password2: string, hash: string -> string, now: int, now2: int)
    requires Register(users, username, email, password, hash, now).Success?
    ensures Register(Register(users, username, email, password, hash, now).value,
                     username, email2, password2, hash, now2) == Failure(BadRequest)
  {
    var users' := Register(users, username, email, password, hash, now).value;
    assert users'[|users|] in users';
  }

  /** Registration keeps usernames and emails unique. */
  lemma RegisterKeepsAccountsUnique(users: seq<UserDoc>, username: string, email: string,
                                    password: string, hash: string -> string, now: int)
    requires AccountsUnique(users)
    requires Register(users, username, email, password, hash, now).Success?
    ensures AccountsUnique(Register(users, username, email, password, hash, now).value)
  {
    var users' := Register(users, username, email, password, hash, now).value;
    forall i, j | 0 <= i < j < |users'|
      ensures users'[i].email != users'[j].email && users'[i].username != users'[j].username
    {
      if j == |users| {
        assert users'[i] == users[i] && users[i] in users;
      } else {
        assert users'[i] == users[i] && users'[j] == users[j];
      }
    }
  }

  /** The stored user document that the list endpoints update in place. */
  class User {
    var username: string
    var email: string
    var password: string
    var createdAt: Option<int>
    var wishlist: seq<string>
    var bought: seq<string>
    var sold: seq<string>

    /** The document as a value. */
    function Doc(): UserDoc
      reads this
    {
      UserDoc(username, email, password, createdAt, wishlist, bought, sold)
    }

    constructor FromDoc(d: UserDoc)
      ensures Doc() == d
    {
      username, email, password, createdAt := d.username, d.email, d.password, d.createdAt;
      wishlist, bought, sold := d.wishlist, d.bought, d.sold;
    }

    /** POST /api/buy/:cardId. */
    method Buy(cardId: string, cards: seq<CatalogCard>) returns (status: Status)
      modifies this
      ensures status == CardCheck(cards, cardId)
      ensures Doc() == if status == Ok then AfterBuy(old(Doc()), cardId) else old(Doc())
    {
      status := CardCheck(cards, cardId);
      if status == Ok {
        bought := AddToSet(bought, cardId);
        wishlist := Pull(wishlist, cardId);
      }
    }

    /** POST /api/sell/:cardId. */
    method Sell(cardId: string) returns (status: Status)
      modifies this
      ensures status == Ok
      ensures Doc() == AfterSell(old(Doc()), cardId)
    {
      bought := Pull(bought, cardId);
      sold := AddToSet(sold, cardId);
      status := Ok;
    }

    /** POST /api/wishlist/:cardId. */
    method AddToWishlist(cardId: string, cards: seq<CatalogCard>) returns (status: Status)
      modifies this
      ensures status == CardCheck(cards, cardId)
      ensures Doc() == if status == Ok then AfterWishlistAdd(old(Doc()), cardId) else old(Doc())
    {
      status := CardCheck(cards, cardId);
      if status == Ok {
        wishlist := AddToSet(wishlist, cardId);
      }
    }

    /** DELETE /api/wishlist/:cardId. */
    method RemoveFromWishlist(cardId: string) returns (status: Status)
      modifies this
      ensures status == Ok
      ensures Doc() == AfterWishlistRemove(old(Doc()), cardId)
    {
      wishlist := Pull(wishlist, cardId);
      status := Ok;
    }
  }
}
