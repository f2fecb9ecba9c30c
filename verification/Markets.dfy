/** Upstream market data: which token is the YES side of a binary market, which token won a
    resolved one, and the law between the two that a settled bet depends on. */
module Markets {
  import opened Wrappers
  import opened Economy
  import Text

  const SURE := 0.99

  /** One upstream row: parallel arrays, a price that is not a number being absent. */
  datatype Listing = Listing(
    labels: seq<string>, prices: seq<Option<real>>, tokens: seq<TokenId>, closed: bool, inactive: bool,
    umaStatus: string)

  datatype Binary = Binary(yesToken: TokenId, noToken: TokenId, yesPrice: Option<real>, noPrice: Option<real>)

  // ── text ─────────────────────────────────────────────────────────────────

  /** A label as it is compared: without surrounding blanks, in lower case. */
  function Normalized(s: string): string { Text.Lower(Text.Strip(s)) }

  predicate SaysYes(s: string) { Normalized(s) == "yes" }

  // ── the two sides of a market ────────────────────────────────────────────

  function PriceAt(prices: seq<Option<real>>, i: nat): Option<real> { if i < |prices| then prices[i] else None }

  predicate Bettable(m: Listing) { |m.labels| == 2 && |m.tokens| == 2 && !m.closed && !m.inactive }

  /** The first label that says yes, or else the first label. */
  function YesIndex(labels: seq<string>): nat
    requires |labels| == 2
  {
    if SaysYes(labels[0]) then 0 else if SaysYes(labels[1]) then 1 else 0
  }

  function NormalizeMarket(m: Listing): Option<Binary> {
    if !Bettable(m) then None
    else
      var yes := YesIndex(m.labels);
      var no := 1 - yes;
      Some(Binary(m.tokens[yes], m.tokens[no], PriceAt(m.prices, yes), PriceAt(m.prices, no)))
  }

  /** A market is read exactly when it is an open, active one of two labels and two tokens. Its
      YES side is the second leg when that alone says yes, and the first leg otherwise, with the
      leg's own token and price; the other leg is the NO side. */
  lemma SidesFollowLabels(m: Listing)
    ensures NormalizeMarket(m).Some? <==> |m.labels| == 2 && |m.tokens| == 2 && !m.closed && !m.inactive
    ensures NormalizeMarket(m).Some? ==>
              var b, i := NormalizeMarket(m).value, if SaysYes(m.labels[1]) && !SaysYes(m.labels[0]) then 1 else 0;
              && b.yesToken == m.tokens[i] && b.noToken == m.tokens[1 - i]
              && b.yesPrice == (if i < |m.prices| then m.prices[i] else None)
              && b.noPrice == (if 1 - i < |m.prices| then m.prices[1 - i] else None)
  {
  }

  lemma YesInAnyCase(w: string)
    ensures Text.Lower(w) == "yes" <==> |w| == 3 && w[0] in "yY" && w[1] in "eE" && w[2] in "sS"
  {
    if |w| == 3 {
      assert Text.Lower(w) == [Text.LowerChar(w[0]), Text.LowerChar(w[1]), Text.LowerChar(w[2])];
    }
  }

  lemma YesWordIsSaid(s: string, a: nat)
    ensures YesAt(s, a) ==> SaysYes(s)
  {
    if YesAt(s, a) {
      var w := s[a..a + 3];
      assert w[0] == s[a] && w[1] == s[a + 1] && w[2] == s[a + 2];
      YesInAnyCase(w);
      Text.CoreIsStripped(s, a, w);
    }
  }

  lemma YesWordStandsThere(s: string, a: nat, w: string)
    ensures Text.IsCore(s, a, w) && Text.Lower(w) == "yes" ==> YesAt(s, a)
  {
    if Text.IsCore(s, a, w) && Text.Lower(w) == "yes" {
      YesInAnyCase(w);
      assert w[0] == s[a] && w[1] == s[a + 1] && w[2] == s[a + 2];
    }
  }

  /** A label says yes exactly when it is the word, in any case, between blanks. */
  lemma SaysYesMeans(s: string)
    ensures SaysYes(s) <==> exists a: nat :: YesAt(s, a)
  {
    if SaysYes(s) {
      Text.StripCutsBlanks(s);
      var a: nat :| Text.IsCore(s, a, Text.Strip(s));
      YesWordStandsThere(s, a, Text.Strip(s));
    }
    if a: nat :| YesAt(s, a) {
      YesWordIsSaid(s, a);
    }
  }

  predicate YesAt(s: string, a: nat) {
    && a + 3 <= |s| && s[a] in "yY" && s[a + 1] in "eE" && s[a + 2] in "sS"
    && (forall i | 0 <= i < a :: Text.IsSpace(s[i])) && (forall i | a + 3 <= i < |s| :: Text.IsSpace(s[i]))
  }

  // ── who won ──────────────────────────────────────────────────────────────

  predicate IsSure(price: Option<real>) { price.Some? && price.value >= SURE }

  function Winners(prices: seq<Option<real>>): seq<nat> {
    if |prices| == 0 then []
    else
      var last := |prices| - 1;
      Winners(prices[..last]) + if IsSure(prices[last]) then [last] else []
  }

  predicate IsFinal(m: Listing) { m.closed && Text.Lower(m.umaStatus) == "resolved" }

  function ResolutionOf(m: Listing): Resolution {
    var winners := Winners(m.prices);
    if !IsFinal(m) then Resolution(false, None, false)
    else if |winners| != 1 || winners[0] >= |m.tokens| then Resolution(true, None, true)
    else Resolution(true, Some(m.tokens[winners[0]]), false)
  }

  method ParseResolution(m: Listing) returns (res: Resolution)
    ensures res == ResolutionOf(m)
  {
    if !(m.closed && Text.Lower(m.umaStatus) == "resolved") {
      return Resolution(false, None, false);
    }
    var winners: seq<nat> := [];
    for i := 0 to |m.prices|
      invariant winners == Winners(m.prices[..i])
    {
      assert m.prices[..i + 1][..i] == m.prices[..i];
      if m.prices[i].Some? && m.prices[i].value >= SURE {
        winners := winners + [i];
      }
    }
    assert m.prices[..|m.prices|] == m.prices;
    if |winners| != 1 || winners[0] >= |m.tokens| {
      return Resolution(true, None, true);
    }
    res := Resolution(true, Some(m.tokens[winners[0]]), false);
  }

  /** `w` is the one leg that settled at about a dollar. */
  predicate OnlyWinner(prices: seq<Option<real>>, w: nat) {
    && w < |prices| && prices[w].Some? && prices[w].value >= 0.99
    && forall j | 0 <= j < |prices| && j != w :: prices[j].None? || prices[j].value < 0.99
  }

  lemma {:induction false} WinnersAreTheSureLegs(prices: seq<Option<real>>, w: nat)
    ensures w in Winners(prices) <==> w < |prices| && IsSure(prices[w])
    decreases |prices|
  {
    if |prices| > 0 {
      WinnersAreTheSureLegs(prices[..|prices| - 1], w);
    }
  }

  lemma {:induction false} WinnersIncrease(prices: seq<Option<real>>)
    ensures forall a, b | 0 <= a < b < |Winners(prices)| :: Winners(prices)[a] < Winners(prices)[b]
    decreases |prices|
  {
    if |prices| > 0 {
      var init := prices[..|prices| - 1];
      WinnersIncrease(init);
      forall k | 0 <= k < |Winners(init)|
        ensures Winners(init)[k] < |init|
      {
        WinnersAreTheSureLegs(init, Winners(init)[k]);
      }
    }
  }

  lemma OneWinner(prices: seq<Option<real>>, w: nat)
    ensures Winners(prices) == [w] <==> OnlyWinner(prices, w)
  {
    var winners := Winners(prices);
    WinnersIncrease(prices);
    assert |winners| >= 2 ==> winners[0] < winners[1];
    WinnersAreTheSureLegs(prices, w);
    if winners == [w] {
      forall j: nat | j < |prices| && j != w
        ensures !IsSure(prices[j])
      {
        WinnersAreTheSureLegs(prices, j);
      }
    }
    if OnlyWinner(prices, w) {
      forall k | 0 <= k < |winners|
        ensures winners[k] == w
      {
        WinnersAreTheSureLegs(prices, winners[k]);
      }
    }
  }

  /** A final market has a winner exactly when one leg alone is sure and has a token; every
      other final market is void, and nothing else is ever resolved. */
  lemma ResolutionMeans(m: Listing, w: nat)
    ensures ResolutionOf(m).resolved <==> m.closed && Text.Lower(m.umaStatus) == "resolved"
    ensures ResolutionOf(m).resolved && OnlyWinner(m.prices, w) && w < |m.tokens| ==>
              ResolutionOf(m) == Resolution(true, Some(m.tokens[w]), false)
    ensures ResolutionOf(m).winningToken.Some? ==>
              ResolutionOf(m).resolved && exists v: nat :: OnlyWinner(m.prices, v) && v < |m.tokens|
    ensures ResolutionOf(m).isVoid <==> ResolutionOf(m).resolved && ResolutionOf(m).winningToken.None?
  {
    OneWinner(m.prices, w);
    var winners := Winners(m.prices);
    if |winners| == 1 {
      OneWinner(m.prices, winners[0]);
      assert winners == [winners[0]];
    }
  }

  // ── a consistent permutation ─────────────────────────────────────────────

  predicate TwoLegs(m: Listing) { |m.labels| == 2 && |m.prices| == 2 && |m.tokens| == 2 }

  function Swapped(m: Listing): Listing
    requires TwoLegs(m)
  {
    m.(labels := [m.labels[1], m.labels[0]], prices := [m.prices[1], m.prices[0]],
       tokens := [m.tokens[1], m.tokens[0]])
  }

  predicate OneYes(labels: seq<string>)
    requires |labels| == 2
  {
    SaysYes(labels[0]) != SaysYes(labels[1])
  }

  /** The upstream order of the legs is immaterial to what is bought exactly when one label,
      and only one, says yes; otherwise the first leg is taken for YES. */
  lemma OrderIsImmaterial(m: Listing)
    requires TwoLegs(m) && Bettable(m) && m.tokens[0] != m.tokens[1]
    ensures NormalizeMarket(Swapped(m)) == NormalizeMarket(m) <==> OneYes(m.labels)
  {
    assert NormalizeMarket(m).Some?;
  }

  lemma TwoLeggedResolution(m: Listing)
    requires TwoLegs(m) && IsFinal(m)
    ensures OnlyWinner(m.prices, 0) ==> ResolutionOf(m) == Resolution(true, Some(m.tokens[0]), false)
    ensures OnlyWinner(m.prices, 1) ==> ResolutionOf(m) == Resolution(true, Some(m.tokens[1]), false)
    ensures !OnlyWinner(m.prices, 0) && !OnlyWinner(m.prices, 1) ==> ResolutionOf(m) == Resolution(true, None, true)
  {
    ResolutionMeans(m, 0);
    ResolutionMeans(m, 1);
  }

  /** The order is always immaterial to who won. */
  lemma ResolutionIgnoresOrder(m: Listing)
    requires TwoLegs(m)
    ensures ResolutionOf(Swapped(m)) == ResolutionOf(m)
  {
    if IsFinal(m) {
      TwoLeggedResolution(m);
      TwoLeggedResolution(Swapped(m));
      assert OnlyWinner(Swapped(m).prices, 0) <==> OnlyWinner(m.prices, 1);
      assert OnlyWinner(Swapped(m).prices, 1) <==> OnlyWinner(m.prices, 0);
    }
  }

  // ── from the label to the winner ─────────────────────────────────────────

  /** The final listing of the same market: the same labelled tokens, in either order. */
  predicate Relisted(m: Listing, final: Listing)
    requires |m.labels| == 2 && |m.tokens| == 2
  {
    TwoLegs(final) &&
    ((final.labels == m.labels && final.tokens == m.tokens) ||
     (final.labels == [m.labels[1], m.labels[0]] && final.tokens == [m.tokens[1], m.tokens[0]]))
  }

  /** A bet on the side that was labelled YES when it was placed is won exactly when the leg
      labelled yes at the end is the only sure one, in whatever order either listing came. */
  lemma YesWinsByLabel(m: Listing, final: Listing, bet: Bet)
    requires Bettable(m) && OneYes(m.labels) && m.tokens[0] != m.tokens[1]
    requires Relisted(m, final) && IsFinal(final) && bet.token == NormalizeMarket(m).value.yesToken
    ensures SettleBetValues(bet, ResolutionOf(final)).status == Won <==>
            OnlyWinner(final.prices, YesIndex(final.labels))
  {
    TwoLeggedResolution(final);
  }

  lemma NoWinsByLabel(m: Listing, final: Listing, bet: Bet)
    requires Bettable(m) && OneYes(m.labels) && m.tokens[0] != m.tokens[1]
    requires Relisted(m, final) && IsFinal(final) && bet.token == NormalizeMarket(m).value.noToken
    ensures SettleBetValues(bet, ResolutionOf(final)).status == Won <==>
            OnlyWinner(final.prices, 1 - YesIndex(final.labels))
  {
    TwoLeggedResolution(final);
  }

  /** Of two bets on opposite sides, one is won and one lost, unless the market is void and
      both stakes come back. */
  lemma ExactlyOneSideWins(m: Listing, final: Listing, yes: Bet, no: Bet)
    requires Bettable(m) && m.tokens[0] != m.tokens[1] && Relisted(m, final) && IsFinal(final)
    requires yes.token == NormalizeMarket(m).value.yesToken && no.token == NormalizeMarket(m).value.noToken
    ensures var a, b := SettleBetValues(yes, ResolutionOf(final)), SettleBetValues(no, ResolutionOf(final));
            if ResolutionOf(final).isVoid
            then a.status == Void && b.status == Void && a.payout == yes.amount && b.payout == no.amount
            else {a.status, b.status} == {Won, Lost}
  {
    TwoLeggedResolution(final);
  }
}
