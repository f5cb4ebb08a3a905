/** The card router: a card document whose `history` is a list of bare
    prices. Creation seeds the history with the initial price; a price
    update assigns the price and appends it to the history. */
module CardRoutes {
  import opened Wrappers

  /** The body of a creation request. A body may carry its own `ownerId`
      and `history`; the handler overrides both. */
  datatype CardBody = CardBody(
    name: string,
    game: string,
    setLabel: string,
    price: real,
    ownerId: Option<string>,
    history: Option<seq<real>>)

  class Card {
    var name: string
    var game: string
    var setLabel: string
    var price: real
    var history: seq<real>
    var ownerId: string

    /** The current price is the last one recorded. */
    ghost predicate PriceTracked()
      reads this
    {
      |history| > 0 && history[|history| - 1] == price
    }

    /** POST /: the body's fields, the caller's id as owner, and a history
        holding just the body's price. */
    constructor Create(body: CardBody, userId: string)
      ensures name == body.name && game == body.game && setLabel == body.setLabel
      ensures price == body.price
      ensures ownerId == userId
      ensures history == [body.price]
      ensures PriceTracked()
    {
      name, game, setLabel := body.name, body.game, body.setLabel;
      price := body.price;
      ownerId := userId;
      history := [body.price];
    }

    /** PUT /:id/price. */
    method UpdatePrice(newPrice: real)
      modifies this
      ensures price == newPrice
      ensures |history| == |old(history)| + 1 && history[..|old(history)|] == old(history)
      ensures history[|history| - 1] == newPrice
      ensures PriceTracked()
      ensures name == old(name) && game == old(game) && setLabel == old(setLabel)
      ensures ownerId == old(ownerId)
    {
      price := newPrice;
      history := history + [newPrice];
    }
  }
}
