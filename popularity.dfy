/** GET /api/popular: a card is popular when its latest price exceeds its
    price as of a cutoff (ten days before now) by at least 20. The history is
    first sorted by date with the engine's stable sort; the baseline is then
    found by a backward scan. */
module Popularity {
  import opened Wrappers
  import opened Seqs
  import opened Documents

  /** The amount a card must have gained to be popular. */
  const Threshold: real := 20.0

  predicate SortedByDate(h: seq<Sample>) {
    forall i, j :: 0 <= i < j < |h| ==> h[i].date <= h[j].date
  }

  /** Inserts `x` before the first sample of `h` that is not older. */
  function Insert(x: Sample, h: seq<Sample>): (r: seq<Sample>)
    requires SortedByDate(h)
    ensures |r| == |h| + 1
    ensures r[0] == x || (h != [] && r[0] == h[0])
    ensures multiset(r) == multiset(h) + multiset{x}
    ensures SortedByDate(r)
  {
    if h == [] || x.date <= h[0].date then [x] + h
    else
      var r' := Insert(x, h[1..]);
      assert h == [h[0]] + h[1..];
      var r := [h[0]] + r';
      assert forall j :: 0 < j < |r| ==> r[0].date <= r'[0].date <= r[j].date;
      r
  }

  /** `sort((a, b) => a.date - b.date)`: insertion sort, which is stable
      like the engine's sort. */
  function SortByDate(h: seq<Sample>): (r: seq<Sample>)
    ensures |r| == |h|
    ensures multiset(r) == multiset(h)
    ensures SortedByDate(r)
  {
    if h == [] then []
    else
      assert h == [h[0]] + h[1..];
      Insert(h[0], SortByDate(h[1..]))
  }

  /** The samples of `h` dated `d`, in their order in `h`. */
  function AtDate(h: seq<Sample>, d: int): seq<Sample> {
    if h == [] then [] else (if h[0].date == d then [h[0]] else []) + AtDate(h[1..], d)
  }

  lemma {:induction false} AtDateAppend(a: seq<Sample>, b: seq<Sample>, d: int)
    ensures AtDate(a + b, d) == AtDate(a, d) + AtDate(b, d)
  {
    if a == [] {
      assert a + b == b;
    } else {
      assert (a + b)[0] == a[0] && (a + b)[1..] == a[1..] + b;
      AtDateAppend(a[1..], b, d);
    }
  }

  lemma {:induction false} InsertAtDate(x: Sample, h: seq<Sample>, d: int)
    requires SortedByDate(h)
    ensures AtDate(Insert(x, h), d) == (if x.date == d then [x] else []) + AtDate(h, d)
  {
    var r := Insert(x, h);
    if h == [] || x.date <= h[0].date {
      assert r[0] == x && r[1..] == h;
    } else {
      assert r[0] == h[0] && r[1..] == Insert(x, h[1..]);
      InsertAtDate(x, h[1..], d);
    }
  }

  /** The sort is stable: the samples of any one date keep their order. */
  lemma {:induction false} SortIsStable(h: seq<Sample>, d: int)
    ensures AtDate(SortByDate(h), d) == AtDate(h, d)
  {
    if h != [] {
      SortIsStable(h[1..], d);
      InsertAtDate(h[0], SortByDate(h[1..]), d);
    }
  }

  /** The latest price is taken from the newest sample, */
  lemma LatestIsNewest(h: seq<Sample>)
    requires |h| > 0
    ensures var s := SortByDate(h); var latest := s[|s| - 1];
      latest in h && forall e :: e in h ==> e.date <= latest.date
  {
    var s := SortByDate(h);
    var latest := s[|s| - 1];
    assert latest in multiset(s);
    forall e | e in h ensures e.date <= latest.date {
      assert e in multiset(s);
      var k :| 0 <= k < |s| && s[k] == e;
    }
  }

  /** ... and, among the samples of that date, from the one stored last. */
  lemma LatestIsStoredLast(h: seq<Sample>)
    requires |h| > 0
    ensures var s := SortByDate(h); var latest := s[|s| - 1]; var same := AtDate(h, latest.date);
      |same| > 0 && same[|same| - 1] == latest
  {
    var s := SortByDate(h);
    var n := |s|;
    var latest := s[n - 1];
    assert s == s[..n - 1] + [latest];
    AtDateAppend(s[..n - 1], [latest], latest.date);
    assert [latest][1..] == [];
    assert AtDate([latest], latest.date) == [latest];
    SortIsStable(h, latest.date);
  }

  /** The index of the last sample dated at or before the cutoff. */
  function LastAtOrBefore(h: seq<Sample>, cutoff: int): (r: Option<nat>)
    ensures r.None? <==> forall i :: 0 <= i < |h| ==> h[i].date > cutoff
    ensures r.Some? ==> r.value < |h| && h[r.value].date <= cutoff
    ensures r.Some? ==> forall j :: r.value < j < |h| ==> h[j].date > cutoff
  {
    if h == [] then None
    else if h[|h| - 1].date <= cutoff then Some(|h| - 1)
    else LastAtOrBefore(h[..|h| - 1], cutoff)
  }

  /** The price as of the cutoff: that of the last sample at or before it,
      or that of the earliest sample when none is. */
  function BaselinePrice(sorted: seq<Sample>, cutoff: int): (r: real)
    requires |sorted| > 0
    ensures exists k :: (0 <= k < |sorted| && r == sorted[k].price &&
      ((sorted[k].date <= cutoff && forall j :: k < j < |sorted| ==> sorted[j].date > cutoff) ||
       (k == 0 && forall j :: 0 <= j < |sorted| ==> sorted[j].date > cutoff)))
  {
    match LastAtOrBefore(sorted, cutoff)
    case Some(k) => sorted[k].price
    case None => sorted[0].price
  }

  /** In a date-sorted history the baseline sample is the one nearest to,
      but not after, the cutoff. */
  lemma BaselineIsNearest(sorted: seq<Sample>, cutoff: int)
    requires SortedByDate(sorted)
    requires LastAtOrBefore(sorted, cutoff).Some?
    ensures var k := LastAtOrBefore(sorted, cutoff).value;
      forall j :: 0 <= j < |sorted| && sorted[j].date <= cutoff ==> sorted[j].date <= sorted[k].date
  {
  }

  /** The filter's test for one card's history. */
  predicate IsPopular(history: Option<seq<Sample>>, cutoff: int)
    ensures IsPopular(history, cutoff) ==> history.Some? && |history.value| >= 2
  {
    match history
    case None => false
    case Some(h) =>
      |h| >= 2 &&
      var sorted := SortByDate(h);
      sorted[|sorted| - 1].price - BaselinePrice(sorted, cutoff) >= Threshold
  }

  /** A missing history, or one with fewer than two samples, is never
      popular. */
  lemma FewSamplesNeverPopular(history: Option<seq<Sample>>, cutoff: int)
    requires history.None? || |history.value| < 2
    ensures !IsPopular(history, cutoff)
  {
  }

  /** The backward scan for the price as of the cutoff, with its `break`. */
  method FindBaseline(sorted: seq<Sample>, cutoff: int) returns (baseline: real)
    requires |sorted| > 0
    ensures baseline == BaselinePrice(sorted, cutoff)
  {
    var priceAtCutoff: Option<real> := None;
    var i := |sorted| - 1;
    while i >= 0
      invariant -1 <= i < |sorted|
      invariant priceAtCutoff.None?
      invariant forall j :: i < j < |sorted| ==> sorted[j].date > cutoff
    {
      if sorted[i].date <= cutoff {
        priceAtCutoff := Some(sorted[i].price);
        break;
      }
      i := i - 1;
    }
    if priceAtCutoff.None? {
      priceAtCutoff := Some(sorted[0].price);
    }
    baseline := priceAtCutoff.value;
  }

  /** The callback given to `cards.filter`. */
  method CheckPopular(card: CatalogCard, cutoff: int) returns (popular: bool)
    ensures popular == IsPopular(card.priceHistory, cutoff)
  {
    if card.priceHistory.None? || |card.priceHistory.value| < 2 {
      return false;
    }
    var sorted := SortByDate(card.priceHistory.value);
    var latestPrice := sorted[|sorted| - 1].price;
    var baseline := FindBaseline(sorted, cutoff);
    popular := latestPrice - baseline >= Threshold;
  }

  function PopularAt(cutoff: int): CatalogCard -> bool {
    (c: CatalogCard) => IsPopular(c.priceHistory, cutoff)
  }

  /** The popular listing: exactly the popular cards, in store order. */
  method ListPopular(cards: seq<CatalogCard>, cutoff: int) returns (popular: seq<CatalogCard>)
    ensures popular == Filter(cards, PopularAt(cutoff))
    ensures forall c :: c in popular <==> c in cards && IsPopular(c.priceHistory, cutoff)
    ensures IsSubsequence(popular, cards)
  {
    popular := [];
    var i := 0;
    while i < |cards|
      invariant 0 <= i <= |cards|
      invariant popular == Filter(cards[..i], PopularAt(cutoff))
    {
      var p := CheckPopular(cards[i], cutoff);
      assert cards[..i + 1][..i] == cards[..i];
      if p {
        popular := popular + [cards[i]];
      }
      i := i + 1;
    }
    assert cards[..i] == cards;
    FilterIsSubsequence(cards, PopularAt(cutoff));
  }

  /** One day in milliseconds. */
  const Day: int := 86_400_000

  /** A history of two samples, the older first, is already sorted. */
  lemma SortTwo(a: Sample, b: Sample)
    requires a.date <= b.date
    ensures SortByDate([a, b]) == [a, b]
    ensures SortByDate([b, a]) == (if a.date == b.date then [b, a] else [a, b])
  {
    assert [a, b][1..] == [b] && [b, a][1..] == [a];
    assert [b][1..] == [] && [a][1..] == [];
    assert SortByDate([b]) == [b];
    assert SortByDate([a]) == [a];
    if a.date != b.date {
      assert Insert(b, [a]) == [a] + Insert(b, []);
    }
  }

  /** With a ten-day cutoff, a gain of 25 (10 twenty
      days ago, 35 yesterday) is popular, in either stored order. */
  lemma PopularExample(now: int)
    ensures IsPopular(Some([Sample(now - 20 * Day, 10.0), Sample(now - Day, 35.0)]), now - 10 * Day)
    ensures IsPopular(Some([Sample(now - Day, 35.0), Sample(now - 20 * Day, 10.0)]), now - 10 * Day)
  {
    var a, b := Sample(now - 20 * Day, 10.0), Sample(now - Day, 35.0);
    SortTwo(a, b);
    assert [a, b][..1] == [a];
    assert LastAtOrBefore([a, b], now - 10 * Day) == Some(0);
  }

  /** A gain of 15 over the same dates is not popular. */
  lemma UnpopularExample(now: int)
    ensures !IsPopular(Some([Sample(now - 20 * Day, 10.0), Sample(now - Day, 25.0)]), now - 10 * Day)
  {
    var a, c := Sample(now - 20 * Day, 10.0), Sample(now - Day, 25.0);
    SortTwo(a, c);
    assert [a, c][..1] == [a];
    assert LastAtOrBefore([a, c], now - 10 * Day) == Some(0);
  }
}
