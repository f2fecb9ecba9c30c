/** From the offers of an event to the button of a post: what is built, stored, posted and
    later opened is one and the same bet. */
module PostedOffers {
  import opened Wrappers
  import opened Publishing
  import opened Outcomes
  import opened DeepLink

  /** What the resolver may answer: the offers of an event, or the two sides of a given market. */
  ghost predicate IsResolved(outcomes: seq<Outcome>) {
    || (exists event :: outcomes == OffersOf(event))
    || (exists m: Live :: m.id != "" && IsYesAndNo(outcomes, m))
  }

  ghost predicate RendersOffers(run: seq<Step>) {
    forall s <- run | s.Render? && s.cta.Some? :: IsResolved(s.cta.value.outcomes)
  }

  lemma ResolvedIsBettable(outcomes: seq<Outcome>)
    requires IsResolved(outcomes)
    ensures AllBettable(outcomes)
  {
    if event :| outcomes == OffersOf(event) {
      OffersAreBettable(event);
    }
  }

  predicate ItemsAreBettable(w: World) { forall i <- w.items :: AllBettable(w.items[i].outcomes) }

  lemma StepKeepsBettable(w: World, s: Step)
    requires ItemsAreBettable(w) && (s.Render? && s.cta.Some? ==> AllBettable(s.cta.value.outcomes))
    ensures ItemsAreBettable(Next(w, s))
  {
    forall i <- Next(w, s).items
      ensures AllBettable(Next(w, s).items[i].outcomes)
    {
      OutcomesComeFromRender(w, s, i);
    }
  }

  lemma OutcomesComeFromRender(w: World, s: Step, i: ItemId)
    requires i in Next(w, s).items
    ensures var outcomes := Next(w, s).items[i].outcomes;
            || outcomes == []
            || (i in w.items && outcomes == w.items[i].outcomes)
            || (s.Render? && s.cta.Some? && outcomes == s.cta.value.outcomes)
  {
    if s.Finish? && i in w.items {
      FinishKeepsCta(w, s.pub, i);
    }
  }

  lemma {:induction false} ItemsAreBettableInEveryRun(run: seq<Step>)
    requires RendersOffers(run)
    ensures ItemsAreBettable(Run(run))
    decreases |run|
  {
    if |run| > 0 {
      var before, s := run[..|run| - 1], run[|run| - 1];
      assert s in run && forall x <- before :: x in run;
      ItemsAreBettableInEveryRun(before);
      if s.Render? && s.cta.Some? {
        ResolvedIsBettable(s.cta.value.outcomes);
      }
      StepKeepsBettable(Run(before), s);
    }
  }

  /** Over every run whose renders store what the resolver answers, each button of each post
      opens, at every later moment, a bet on its outcome's market and side. */
  lemma PostedOffersOpen(run: seq<Step>, post: Post, index: nat)
    requires RendersOffers(run) && post in Run(run).posts && index < |post.outcomes|
    ensures var o := post.outcomes[index];
            Tap(Run(run).items, BetPayload(post.key.item, index)) == OpenBet(o.market, o.side == "yes")
  {
    ItemsAreBettableInEveryRun(run);
    ButtonsInvariantInEveryRun(run);
    assert IsStoredCta(Run(run), post.key.item, post.outcomes);
    assert IsBettable(post.outcomes[index]);
    PostedButtonsKeepMeaning(run, post, index);
  }

  /** The post of an event with at most one choice opens the YES side of the first of the likeliest
      live markets behind its first button, Yes, and the NO side behind its second, No. */
  lemma BinaryPostOpensItsSides(run: seq<Step>, post: Post, event: seq<SubMarket>)
    requires RendersOffers(run) && post in Run(run).posts
    requires post.outcomes == OffersOf(event) && post.outcomes != [] && |Choices(LiveMarkets(event))| < 2
    ensures |post.outcomes| == 2 && post.outcomes[0].name == "Yes" && post.outcomes[1].name == "No"
    ensures exists i: nat ::
              && IsLikeliest(LiveMarkets(event), i)
              && Tap(Run(run).items, BetPayload(post.key.item, 0)) == OpenBet(LiveMarkets(event)[i].id, true)
              && Tap(Run(run).items, BetPayload(post.key.item, 1)) == OpenBet(LiveMarkets(event)[i].id, false)
  {
    OffersAreTwoSides(event);
    PostedOffersOpen(run, post, 0);
    PostedOffersOpen(run, post, 1);
  }

  /** The post of an event with two choices or more opens, behind each button, the YES side of
      the market whose first choice the button shows. */
  lemma ChoicePostOpensYes(run: seq<Step>, post: Post, event: seq<SubMarket>, index: nat)
    requires RendersOffers(run) && post in Run(run).posts
    requires post.outcomes == OffersOf(event) && |Choices(LiveMarkets(event))| >= 2 && index < |post.outcomes|
    ensures exists j: nat ::
              && IsFirstOffer(LiveMarkets(event), j, post.outcomes[index])
              && Tap(Run(run).items, BetPayload(post.key.item, index)) == OpenBet(LiveMarkets(event)[j].id, true)
  {
    var o := post.outcomes[index];
    assert o in post.outcomes;
    OffersAreTheLikeliest(event);
    ChoicesAreFirstOfTheirMarket(LiveMarkets(event));
    var j: nat :| IsFirstOffer(LiveMarkets(event), j, o);
    PostedOffersOpen(run, post, index);
  }
}
