/** GET /simulate: every card's price takes a random step, floored at 1,
    and the new price is appended to the card's history; each card is saved
    in turn. The random draws and the outcome of each save are parameters. */
module Market {
  import opened CardRoutes

  /** `(Math.random() - 0.5) * 10` lies in this range. */
  predicate ValidChange(change: real) {
    -5.0 <= change < 5.0
  }

  /** `Math.max(1, price + change)`: the smallest value that is at least 1
      and at least `price + change`. */
  function NextPrice(price: real, change: real): (r: real)
    ensures r >= 1.0 && r >= price + change
    ensures r == 1.0 || r == price + change
  {
    if price + change > 1.0 then price + change else 1.0
  }

  /** From a price of at least 1, one step moves the price by less than 5
      either way. */
  lemma StepBounded(price: real, change: real)
    requires price >= 1.0 && ValidChange(change)
    ensures price - 5.0 <= NextPrice(price, change) < price + 5.0
  {
  }

  /** Card `c` has taken one step from `price0`/`history0`. */
  ghost predicate Stepped(c: Card, price0: real, history0: seq<real>, change: real)
    reads c
  {
    c.price == NextPrice(price0, change) && c.history == history0 + [c.price]
  }

  /** The simulation loop. `saved[i]` says whether the save of card `i`
      succeeds; the first failed save ends the run. The result is the number
      of cards saved. Cards up to and including the one whose save failed
      carry their step in memory; the cards after it are untouched. */
  method Simulate(cards: seq<Card>, changes: seq<real>, saved: seq<bool>) returns (completed: nat)
    requires |changes| == |cards| && |saved| == |cards|
    requires forall i :: 0 <= i < |changes| ==> ValidChange(changes[i])
    requires forall i, j :: 0 <= i < j < |cards| ==> cards[i] != cards[j]
    modifies set c | c in cards
    ensures completed <= |cards|
    ensures forall i :: 0 <= i < completed ==> saved[i]
    ensures completed < |cards| ==> !saved[completed]
    ensures forall i :: 0 <= i < |cards| && i <= completed ==>
      Stepped(cards[i], old(cards[i].price), old(cards[i].history), changes[i])
    ensures forall i :: completed < i < |cards| ==>
      cards[i].price == old(cards[i].price) && cards[i].history == old(cards[i].history)
    ensures forall i :: 0 <= i < |cards| ==>
      cards[i].name == old(cards[i].name) && cards[i].game == old(cards[i].game) &&
      cards[i].setLabel == old(cards[i].setLabel) && cards[i].ownerId == old(cards[i].ownerId)
    ensures completed == |cards| ==> forall i :: 0 <= i < |cards| ==>
      cards[i].price >= 1.0 && cards[i].PriceTracked()
  {
    var i := 0;
    while i < |cards|
      invariant 0 <= i <= |cards|
      invariant forall k :: 0 <= k < i ==> saved[k]
      invariant forall k :: 0 <= k < i ==>
        Stepped(cards[k], old(cards[k].price), old(cards[k].history), changes[k])
      invariant forall k :: i <= k < |cards| ==>
        cards[k].price == old(cards[k].price) && cards[k].history == old(cards[k].history)
      invariant forall k :: 0 <= k < |cards| ==>
        cards[k].name == old(cards[k].name) && cards[k].game == old(cards[k].game) &&
        cards[k].setLabel == old(cards[k].setLabel) && cards[k].ownerId == old(cards[k].ownerId)
    {
      var card := cards[i];
      card.price := NextPrice(card.price, changes[i]);
      card.history := card.history + [card.price];
      if !saved[i] {
        return i;
      }
      i := i + 1;
    }
    completed := |cards|;
  }
}
