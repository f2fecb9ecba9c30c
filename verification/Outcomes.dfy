/** The bettable outcomes built for a matched event: one button per market, the likeliest first,
    or the two sides of a plain binary market. */
module Outcomes {
  import opened Wrappers
  import Markets
  import opened Publishing
  import Text

  const OUTCOMES_CAP := 4
  const NAME_MAX := 48

  /** One sub-market of an event as listed upstream; a missing id or title is empty. */
  datatype SubMarket = SubMarket(id: string, title: string, listing: Markets.Listing)

  /** A live sub-market: open, binary and identified. */
  datatype Live = Live(id: string, name: string, yesPrice: Option<real>, noPrice: Option<real>)

  function LiveOf(m: SubMarket): seq<Live> {
    var b := Markets.NormalizeMarket(m.listing);
    if b.None? || m.id == "" then [] else [Live(m.id, Text.Strip(m.title), b.value.yesPrice, b.value.noPrice)]
  }

  function LiveMarkets(event: seq<SubMarket>): seq<Live> {
    if |event| == 0 then [] else LiveMarkets(event[..|event| - 1]) + LiveOf(event[|event| - 1])
  }

  // ── one outcome per market ───────────────────────────────────────────────

  /** A choice of a multi-outcome event: it has a name and a price. */
  predicate IsChoice(m: Live) { m.name != "" && m.yesPrice.Some? }

  function ChoiceOffer(m: Live): Outcome { Outcome(m.name[..Min(NAME_MAX, |m.name|)], m.id, "yes", m.yesPrice) }

  predicate Offers(offers: seq<Outcome>, market: string) { exists o <- offers :: o.market == market }

  function Choices(live: seq<Live>): seq<Outcome> {
    if |live| == 0 then []
    else
      var before, m := Choices(live[..|live| - 1]), live[|live| - 1];
      if IsChoice(m) && !Offers(before, m.id) then before + [ChoiceOffer(m)] else before
  }

  predicate Priced(offers: seq<Outcome>) { forall o <- offers :: o.price.Some? }

  predicate OnePerMarket(offers: seq<Outcome>) {
    forall i, j | 0 <= i < j < |offers| :: offers[i].market != offers[j].market
  }

  lemma {:induction false} ChoicesDiffer(live: seq<Live>)
    ensures Priced(Choices(live)) && OnePerMarket(Choices(live))
    decreases |live|
  {
    if |live| > 0 {
      ChoicesDiffer(live[..|live| - 1]);
    }
  }

  /** The offer of a market's first choice: YES on that market at that listing's price, under
      the first forty-eight characters of its name. */
  ghost predicate IsFirstOffer(live: seq<Live>, j: nat, o: Outcome) {
    && j < |live| && live[j].name != "" && live[j].yesPrice.Some?
    && (forall k | 0 <= k < j :: live[k].id != live[j].id || live[k].name == "" || live[k].yesPrice.None?)
    && o.market == live[j].id && o.side == "yes" && o.price == live[j].yesPrice
    && o.name <= live[j].name && |o.name| == if |live[j].name| < 48 then |live[j].name| else 48
  }

  lemma FirstOfferOfLonger(live: seq<Live>, last: Live, j: nat, o: Outcome)
    requires IsFirstOffer(live, j, o)
    ensures IsFirstOffer(live + [last], j, o)
  {
  }

  lemma {:induction false} LastIsFirstOffer(before: seq<Live>, last: Live)
    requires IsChoice(last) && !Offers(Choices(before), last.id)
    ensures IsFirstOffer(before + [last], |before|, ChoiceOffer(last))
  {
    forall k | 0 <= k < |before|
      ensures before[k].id != last.id || before[k].name == "" || before[k].yesPrice.None?
    {
      if IsChoice(before[k]) {
        EveryChoiceIsOffered(before, before[k]);
      }
    }
  }

  lemma {:induction false} ChoicesAreLive(live: seq<Live>)
    ensures forall o <- Choices(live) :: exists j: nat :: IsFirstOffer(live, j, o)
    decreases |live|
  {
    if |live| > 0 {
      var before, last := live[..|live| - 1], live[|live| - 1];
      ChoicesAreLive(before);
      assert live == before + [last];
      forall o <- Choices(live)
        ensures exists j: nat :: IsFirstOffer(live, j, o)
      {
        if o in Choices(before) {
          var j: nat :| IsFirstOffer(before, j, o);
          FirstOfferOfLonger(before, last, j, o);
        } else {
          LastIsFirstOffer(before, last);
        }
      }
    }
  }

  lemma OffersAppend(offers: seq<Outcome>, o: Outcome, market: string)
    ensures Offers(offers + [o], market) <==> Offers(offers, market) || o.market == market
  {
    if Offers(offers, market) {
      var p :| p in offers && p.market == market;
      assert p in offers + [o];
    }
    if o.market == market {
      assert o in offers + [o];
    }
  }

  lemma {:induction false} EveryChoiceIsOffered(live: seq<Live>, m: Live)
    requires m in live && IsChoice(m)
    ensures Offers(Choices(live), m.id)
    decreases |live|
  {
    var before, last := live[..|live| - 1], live[|live| - 1];
    assert live == before + [last];
    if m in before {
      EveryChoiceIsOffered(before, m);
    }
    OffersAppend(Choices(before), ChoiceOffer(last), m.id);
  }

  lemma ChoicesAreFirstOfTheirMarket(live: seq<Live>)
    ensures Priced(Choices(live)) && OnePerMarket(Choices(live))
    ensures forall o <- Choices(live) :: exists j: nat :: IsFirstOffer(live, j, o)
    ensures forall m <- live :: m.name != "" && m.yesPrice.Some? ==> exists o <- Choices(live) :: o.market == m.id
  {
    ChoicesDiffer(live);
    ChoicesAreLive(live);
    forall m <- live | m.name != "" && m.yesPrice.Some?
      ensures exists o <- Choices(live) :: o.market == m.id
    {
      EveryChoiceIsOffered(live, m);
    }
  }

  // ── the likeliest first ──────────────────────────────────────────────────

  function Price(o: Outcome): real { if o.price.Some? then o.price.value else 0.0 }

  /** A stable insertion behind everything at least as likely. */
  function Insert(o: Outcome, sorted: seq<Outcome>): seq<Outcome> {
    if |sorted| == 0 || Price(sorted[|sorted| - 1]) >= Price(o) then sorted + [o]
    else Insert(o, sorted[..|sorted| - 1]) + [sorted[|sorted| - 1]]
  }

  function SortByPrice(offers: seq<Outcome>): seq<Outcome> {
    if |offers| == 0 then [] else Insert(offers[|offers| - 1], SortByPrice(offers[..|offers| - 1]))
  }

  predicate LikeliestFirst(offers: seq<Outcome>) {
    forall i, j | 0 <= i < j < |offers| :: Price(offers[i]) >= Price(offers[j])
  }

  /** The offers at one price, in their order. */
  function AtPrice(offers: seq<Outcome>, price: real): seq<Outcome> {
    if |offers| == 0 then []
    else
      var last := offers[|offers| - 1];
      AtPrice(offers[..|offers| - 1], price) + if Price(last) == price then [last] else []
  }

  predicate AllAtLeast(offers: seq<Outcome>, price: real) { forall i | 0 <= i < |offers| :: Price(offers[i]) >= price }

  lemma {:induction false} InsertKeepsOrder(o: Outcome, sorted: seq<Outcome>)
    requires LikeliestFirst(sorted)
    ensures LikeliestFirst(Insert(o, sorted))
    ensures forall p: real | AllAtLeast(sorted, p) && Price(o) >= p :: AllAtLeast(Insert(o, sorted), p)
    decreases |sorted|
  {
    if |sorted| > 0 && Price(sorted[|sorted| - 1]) < Price(o) {
      var init, last := sorted[..|sorted| - 1], sorted[|sorted| - 1];
      InsertKeepsOrder(o, init);
      assert AllAtLeast(init, Price(last)) && AllAtLeast(Insert(o, init), Price(last));
      forall p: real | AllAtLeast(sorted, p) && Price(o) >= p ensures AllAtLeast(Insert(o, sorted), p) {
        assert AllAtLeast(init, p) && sorted[|sorted| - 1] == last;
      }
    }
  }

  lemma {:induction false} InsertKeepsContents(o: Outcome, sorted: seq<Outcome>)
    ensures multiset(Insert(o, sorted)) == multiset(sorted) + multiset{o}
    decreases |sorted|
  {
    if |sorted| > 0 && Price(sorted[|sorted| - 1]) < Price(o) {
      InsertKeepsContents(o, sorted[..|sorted| - 1]);
      assert sorted == sorted[..|sorted| - 1] + [sorted[|sorted| - 1]];
    }
  }

  lemma {:induction false} InsertIsStable(o: Outcome, sorted: seq<Outcome>, price: real)
    requires LikeliestFirst(sorted)
    ensures AtPrice(Insert(o, sorted), price) == AtPrice(sorted, price) + if Price(o) == price then [o] else []
    decreases |sorted|
  {
    if |sorted| == 0 || Price(sorted[|sorted| - 1]) >= Price(o) {
      assert (sorted + [o])[..|sorted|] == sorted;
    } else {
      var init, last := sorted[..|sorted| - 1], sorted[|sorted| - 1];
      InsertIsStable(o, init, price);
      assert (Insert(o, init) + [last])[..|Insert(o, init)|] == Insert(o, init);
    }
  }

  lemma {:induction false} SortIsOrdered(offers: seq<Outcome>)
    ensures LikeliestFirst(SortByPrice(offers))
    decreases |offers|
  {
    if |offers| > 0 {
      SortIsOrdered(offers[..|offers| - 1]);
      InsertKeepsOrder(offers[|offers| - 1], SortByPrice(offers[..|offers| - 1]));
    }
  }

  lemma {:induction false} SortKeepsContents(offers: seq<Outcome>)
    ensures multiset(SortByPrice(offers)) == multiset(offers)
    decreases |offers|
  {
    if |offers| > 0 {
      var init, last := offers[..|offers| - 1], offers[|offers| - 1];
      SortKeepsContents(init);
      InsertKeepsContents(last, SortByPrice(init));
      assert offers == init + [last];
    }
  }

  lemma SortOrders(offers: seq<Outcome>)
    ensures LikeliestFirst(SortByPrice(offers)) && multiset(SortByPrice(offers)) == multiset(offers)
  {
    SortIsOrdered(offers);
    SortKeepsContents(offers);
  }

  /** Equally likely offers stay in the order they were listed; with the order and the contents
      this fixes the sorted list. */
  lemma {:induction false} SortIsStable(offers: seq<Outcome>, price: real)
    ensures AtPrice(SortByPrice(offers), price) == AtPrice(offers, price)
    decreases |offers|
  {
    if |offers| > 0 {
      var init, last := offers[..|offers| - 1], offers[|offers| - 1];
      SortIsStable(init, price);
      SortIsOrdered(init);
      InsertIsStable(last, SortByPrice(init), price);
    }
  }

  // ── the offers of an event ───────────────────────────────────────────────

  function Likelihood(m: Live): real { if m.yesPrice.Some? then m.yesPrice.value else 0.0 }

  /** A market as likely as any, before which every one is less likely; an unpriced YES side
      counts as zero. */
  predicate IsLikeliest(live: seq<Live>, i: nat) {
    && i < |live|
    && (forall k | 0 <= k < i ::
          (if live[k].yesPrice.Some? then live[k].yesPrice.value else 0.0)
          < if live[i].yesPrice.Some? then live[i].yesPrice.value else 0.0)
    && (forall k | i <= k < |live| ::
          (if live[k].yesPrice.Some? then live[k].yesPrice.value else 0.0)
          <= if live[i].yesPrice.Some? then live[i].yesPrice.value else 0.0)
  }

  /** The first of the likeliest, as a left-to-right maximum finds it. */
  function Likeliest(live: seq<Live>): (best: Live)
    requires |live| > 0
  {
    if |live| == 1 then live[0]
    else
      var best, last := Likeliest(live[..|live| - 1]), live[|live| - 1];
      if Likelihood(last) > Likelihood(best) then last else best
  }

  lemma LikeliestOfLonger(live: seq<Live>, i: nat, last: Live)
    requires IsLikeliest(live, i)
    ensures IsLikeliest(live + [last], if Likelihood(last) > Likelihood(live[i]) then |live| else i)
  {
  }

  lemma {:induction false} LikeliestIsFirst(live: seq<Live>) returns (i: nat)
    requires |live| > 0
    ensures IsLikeliest(live, i) && live[i] == Likeliest(live)
    decreases |live|
  {
    if |live| == 1 {
      i := 0;
    } else {
      var before, last := live[..|live| - 1], live[|live| - 1];
      i := LikeliestIsFirst(before);
      LikeliestOfLonger(before, i, last);
      assert live == before + [last];
      i := if Likelihood(last) > Likelihood(before[i]) then |before| else i;
    }
  }

  function TwoSides(m: Live): seq<Outcome> {
    [Outcome("Yes", m.id, "yes", m.yesPrice), Outcome("No", m.id, "no", m.noPrice)]
  }

  function OffersOf(event: seq<SubMarket>): seq<Outcome> {
    var live := LiveMarkets(event);
    var sorted := SortByPrice(Choices(live));
    if |live| == 0 then []
    else if |Choices(live)| >= 2 then sorted[..Min(OUTCOMES_CAP, |sorted|)]
    else TwoSides(Likeliest(live))
  }

  method BuildOutcomes(event: seq<SubMarket>) returns (outcomes: seq<Outcome>)
    ensures outcomes == OffersOf(event)
  {
    var live := LiveMarkets(event);
    if |live| == 0 {
      return [];
    }
    var multi: seq<Outcome> := [];
    var seen: set<string> := {};
    for i := 0 to |live|
      invariant multi == Choices(live[..i])
      invariant forall market :: market in seen <==> Offers(multi, market)
    {
      var m := live[i];
      assert live[..i + 1][..i] == live[..i];
      if m.name != "" && m.yesPrice.Some? && m.id !in seen {
        seen := seen + {m.id};
        multi := multi + [Outcome(m.name[..Min(NAME_MAX, |m.name|)], m.id, "yes", m.yesPrice)];
        assert multi[|multi| - 1].market == m.id;
      }
    }
    assert live[..|live|] == live;
    if |multi| >= 2 {
      multi := SortByPrice(multi);
      return multi[..Min(OUTCOMES_CAP, |multi|)];
    }
    var best := Likeliest(live);
    outcomes := [Outcome("Yes", best.id, "yes", best.yesPrice), Outcome("No", best.id, "no", best.noPrice)];
  }

  /** What the first offers of a list leave out is no likelier than what they keep. */
  lemma PrefixIsLikeliest(sorted: seq<Outcome>, n: nat)
    requires n <= |sorted| && LikeliestFirst(sorted)
    ensures LikeliestFirst(sorted[..n])
    ensures forall o <- sorted, kept <- sorted[..n] :: o !in sorted[..n] ==> Price(o) <= Price(kept)
  {
    var front := sorted[..n];
    assert forall q | 0 <= q < n :: sorted[q] == front[q] && front[q] in front;
    forall o <- sorted, kept <- front | o !in front
      ensures Price(o) <= Price(kept)
    {
      var i :| 0 <= i < |sorted| && sorted[i] == o;
      var j :| 0 <= j < n && front[j] == kept;
      assert n <= i;
    }
  }

  predicate SameOffers(a: seq<Outcome>, b: seq<Outcome>) {
    |a| == |b| && (forall o <- a :: o in b) && forall o <- b :: o in a
  }

  lemma PermutedIsSame(a: seq<Outcome>, b: seq<Outcome>)
    requires multiset(a) == multiset(b)
    ensures SameOffers(a, b)
  {
    assert |multiset(a)| == |a| && |multiset(b)| == |b|;
    forall o <- a ensures o in b {
      assert o in multiset(a);
    }
    forall o <- b ensures o in a {
      assert o in multiset(b);
    }
  }

  lemma {:induction false} OnceIn(a: seq<Outcome>, o: Outcome)
    requires OnePerMarket(a)
    ensures multiset(a)[o] <= 1
    decreases |a|
  {
    if |a| > 0 {
      var init, last := a[..|a| - 1], a[|a| - 1];
      assert a == init + [last];
      OnceIn(init, o);
      assert o == last ==> o !in init;
      assert o in multiset(init) ==> o in init;
    }
  }

  lemma TwiceIn(b: seq<Outcome>, i: nat, j: nat)
    requires i < j < |b| && b[i] == b[j]
    ensures multiset(b)[b[i]] >= 2
  {
    assert b == b[..j] + b[j..];
    assert b[..j][i] in multiset(b[..j]) && b[j..][0] in multiset(b[j..]);
  }

  lemma PermutedOnePerMarket(a: seq<Outcome>, b: seq<Outcome>)
    requires OnePerMarket(a) && multiset(a) == multiset(b)
    ensures OnePerMarket(b)
  {
    forall i, j | 0 <= i < j < |b| ensures b[i].market != b[j].market {
      assert b[i] in multiset(b) && b[j] in multiset(b);
      assert b[i] in a && b[j] in a;
      OnceIn(a, b[i]);
      if b[i] == b[j] {
        TwiceIn(b, i, j);
      }
    }
  }

  /** The buttons of a multi-outcome event: YES on distinct markets, likeliest first, and none
      that was left out was likelier than one that was kept. */
  lemma OffersAreTheLikeliest(event: seq<SubMarket>)
    requires |Choices(LiveMarkets(event))| >= 2
    ensures |OffersOf(event)| == Min(4, |Choices(LiveMarkets(event))|)
    ensures OnePerMarket(OffersOf(event)) && Priced(OffersOf(event)) && Priced(Choices(LiveMarkets(event)))
    ensures forall i, j | 0 <= i < j < |OffersOf(event)| ::
              OffersOf(event)[i].price.value >= OffersOf(event)[j].price.value
    ensures forall o <- OffersOf(event) :: o in Choices(LiveMarkets(event)) && o.side == "yes"
    ensures forall o <- Choices(LiveMarkets(event)), kept <- OffersOf(event) ::
              o !in OffersOf(event) ==> o.price.value <= kept.price.value
  {
    var choices := Choices(LiveMarkets(event));
    var sorted := SortByPrice(choices);
    ChoicesAreFirstOfTheirMarket(LiveMarkets(event));
    SortOrders(choices);
    PermutedIsSame(choices, sorted);
    PermutedOnePerMarket(choices, sorted);
    PrefixIsLikeliest(sorted, Min(OUTCOMES_CAP, |sorted|));
  }

  lemma {:induction false} LiveMarketsHaveIds(event: seq<SubMarket>)
    ensures forall m <- LiveMarkets(event) :: m.id != ""
    decreases |event|
  {
    if |event| > 0 {
      LiveMarketsHaveIds(event[..|event| - 1]);
    }
  }

  /** A side of a market that is named. */
  predicate IsBettable(o: Outcome) { o.market != "" && (o.side == "yes" || o.side == "no") }

  predicate AllBettable(outcomes: seq<Outcome>) { forall o <- outcomes :: IsBettable(o) }

  lemma {:induction false} ChoicesAreBettable(live: seq<Live>)
    requires forall m <- live :: m.id != ""
    ensures AllBettable(Choices(live))
    decreases |live|
  {
    if |live| > 0 {
      assert live[|live| - 1] in live && forall m <- live[..|live| - 1] :: m in live;
      ChoicesAreBettable(live[..|live| - 1]);
    }
  }

  lemma SidesAreBettable(m: Live)
    requires m.id != ""
    ensures AllBettable(TwoSides(m))
  {
  }

  /** Every offer of every event names a market and one of its two sides. */
  lemma OffersAreBettable(event: seq<SubMarket>)
    ensures AllBettable(OffersOf(event))
  {
    var live := LiveMarkets(event);
    LiveMarketsHaveIds(event);
    ChoicesAreBettable(live);
    if |Choices(live)| >= 2 {
      OffersAreTheLikeliest(event);
    } else if |live| > 0 {
      var i := LikeliestIsFirst(live);
      SidesAreBettable(live[i]);
    }
  }

  /** Otherwise the event is a plain binary: nothing when no market is live, and else exactly two
      offers on the first of the likeliest live markets, Yes on its YES side and No on its NO side. */
  lemma OffersAreTwoSides(event: seq<SubMarket>)
    requires |Choices(LiveMarkets(event))| < 2
    ensures OffersOf(event) == [] <==> LiveMarkets(event) == []
    ensures OffersOf(event) != [] ==>
              exists i: nat :: IsLikeliest(LiveMarkets(event), i) && IsYesAndNo(OffersOf(event), LiveMarkets(event)[i])
  {
    if LiveMarkets(event) != [] {
      var i := LikeliestIsFirst(LiveMarkets(event));
      assert IsYesAndNo(OffersOf(event), LiveMarkets(event)[i]);
    }
  }

  predicate IsYesAndNo(offers: seq<Outcome>, m: Live) {
    && |offers| == 2
    && offers[0].name == "Yes" && offers[0].side == "yes" && offers[0].price == m.yesPrice
    && offers[1].name == "No" && offers[1].side == "no" && offers[1].price == m.noPrice
    && offers[0].market == m.id && offers[1].market == m.id
  }

  lemma OneLive(sub: SubMarket, m: Live)
    ensures m in LiveOf(sub) <==> IsLiveOf(sub, m)
  {
  }

  /** The live markets are the identified sub-markets that normalise, each with the prices of its
      two sides and its trimmed name. */
  lemma {:induction false} LiveMarketsMean(event: seq<SubMarket>, m: Live)
    ensures m in LiveMarkets(event) <==> IsListed(event, m)
    decreases |event|
  {
    if |event| > 0 {
      var before, last := event[..|event| - 1], event[|event| - 1];
      LiveMarketsMean(before, m);
      OneLive(last, m);
      ListedInLonger(before, last, m);
      assert event == before + [last];
      assert LiveMarkets(event) == LiveMarkets(before) + LiveOf(last);
    }
  }

  /** And they stand in the order the event lists them. */
  lemma {:induction false} LiveMarketsInOrder(a: seq<SubMarket>, b: seq<SubMarket>)
    ensures LiveMarkets(a + b) == LiveMarkets(a) + LiveMarkets(b)
    decreases |b|
  {
    if |b| == 0 {
      assert a + b == a;
    } else {
      assert (a + b)[..|a + b| - 1] == a + b[..|b| - 1];
      LiveMarketsInOrder(a, b[..|b| - 1]);
    }
  }

  predicate IsListed(event: seq<SubMarket>, m: Live) { exists sub <- event :: IsLiveOf(sub, m) }

  lemma ListedInLonger(before: seq<SubMarket>, last: SubMarket, m: Live)
    ensures IsListed(before + [last], m) <==> IsListed(before, m) || IsLiveOf(last, m)
  {
    if sub :| sub in before && IsLiveOf(sub, m) {
      assert sub in before + [last];
    }
    if IsLiveOf(last, m) {
      assert last in before + [last];
    }
  }

  predicate IsLiveOf(sub: SubMarket, m: Live) {
    var b := Markets.NormalizeMarket(sub.listing);
    && sub.id != "" && b.Some? && m.id == sub.id && m.name == Text.Strip(sub.title)
    && m.yesPrice == b.value.yesPrice && m.noPrice == b.value.noPrice
  }
}
