/** The market lists a session shows: every button carries the list's generation and an index,
    and a button of an older list must never act on a newer one. */
module MarketButtons {
  import opened Wrappers
  import DeepLink

  type MarketId = string

  /** A button as it was shown, with the market its list had at that index. */
  datatype Button = Button(gen: string, idx: string, market: MarketId)

  /** A typed amount waiting for the market and side of an earlier button. */
  datatype Capture = Capture(gen: string, idx: string, yes: bool)

  /** A bet that was passed on to the confirmation desk. */
  datatype Placed = Placed(gen: string, idx: string, market: MarketId, yes: bool, news: bool)

  /** The news funnel's mark on the list it opened, and the side its link named. */
  datatype NewsTag = NewsTag(gen: nat, yes: bool)

  /** The market and side a link of the news channel names. */
  datatype NewsLink = NewsLink(market: MarketId, yes: bool)

  /** What the market data says about the market asked for; an open market has a price and a
      token for a side or not. */
  datatype Answer = Closed | Unreachable | Open(yesQuoted: bool, noQuoted: bool)

  datatype Page = Page(
    gen: nat, stash: map<string, MarketId>, newsTag: Option<NewsTag>, capture: Option<Capture>, shown: seq<Button>,
    newsLinks: map<nat, NewsLink>, placed: seq<Placed>)

  const BLANK := Page(0, map[], None, None, [], map[], [])

  predicate IsQuoted(answer: Answer, yes: bool) { answer.Open? && if yes then answer.yesQuoted else answer.noQuoted }

  function Str(n: nat): string { DeepLink.Decimal(n) }

  lemma StrIsInjective(a: nat, b: nat)
    requires Str(a) == Str(b)
    ensures a == b
  {
    DeepLink.DecimalReadsBack(a);
    DeepLink.DecimalReadsBack(b);
  }

  /** The markets of a list keyed by their index as text. */
  function StashOf(markets: seq<MarketId>): map<string, MarketId> {
    if |markets| == 0 then map[]
    else StashOf(markets[..|markets| - 1])[Str(|markets| - 1) := markets[|markets| - 1]]
  }

  function RowsOf(gen: nat, markets: seq<MarketId>): seq<Button> {
    if |markets| == 0 then []
    else
      var last := |markets| - 1;
      RowsOf(gen, markets[..last]) + [Button(Str(gen), Str(last), markets[last])]
  }

  /** A market only if the button belongs to the list that is showing. */
  function Resolve(p: Page, gen: string, idx: string): Option<MarketId> {
    if Str(p.gen) != gen then None
    else if idx in p.stash then Some(p.stash[idx]) else None
  }

  /** Whether the news funnel marked the generation a button names. */
  predicate IsNewsTap(p: Page, gen: string) { p.newsTag.Some? && Str(p.newsTag.value.gen) == gen }

  datatype Step =
    | ShowList(markets: seq<MarketId>)
    | OpenNewsBet(market: MarketId, yes: bool, answer: Answer, wallets: nat, again: Answer)
    | PickWallet(gen: string, owned: bool, answer: Answer)
    | Redraw(gen: string, idx: string)
    | ArmCustom(gen: string, idx: string, yes: bool)
    | Place(gen: string, idx: string, yes: bool, answer: Answer)
    | TypeAmount(valid: bool, answer: Answer)

  function NewList(p: Page, markets: seq<MarketId>): Page {
    p.(gen := p.gen + 1, stash := StashOf(markets), shown := p.shown + RowsOf(p.gen + 1, markets))
  }

  function NewsList(p: Page, market: MarketId, yes: bool): Page {
    var listed := NewList(p, [market]);
    listed.(newsTag := Some(NewsTag(listed.gen, yes)), capture := None, newsLinks := p.newsLinks[listed.gen := NewsLink(market, yes)])
  }

  /** A news bet needs a market that is still open and quoted on its side. */
  function PlaceFrom(p: Page, gen: string, idx: string, yes: bool, answer: Answer): Page {
    var m, news := Resolve(p, gen, idx), IsNewsTap(p, gen);
    if m.None? || (news && !IsQuoted(answer, yes)) then p
    else p.(placed := p.placed + [Placed(gen, idx, m.value, yes, news)])
  }

  function Next(p: Page, step: Step): Page {
    match step
    case ShowList(markets) => NewList(p, markets)
    case OpenNewsBet(market, yes, answer, wallets, again) =>
      if !answer.Open? then p
      else
        var listed := NewsList(p, market, yes);
        if wallets > 1 then listed else PlaceFrom(listed, Str(listed.gen), "0", yes, again)
    case PickWallet(gen, owned, answer) =>
      if !IsNewsTap(p, gen) || Resolve(p, gen, "0").None? || !owned then p
      else PlaceFrom(p, gen, "0", p.newsTag.value.yes, answer)
    case Redraw(gen, idx) =>
      var m := Resolve(p, gen, idx);
      if m.None? then p else p.(shown := p.shown + [Button(gen, idx, m.value)])
    case ArmCustom(gen, idx, yes) =>
      if Resolve(p, gen, idx).None? then p else p.(capture := Some(Capture(gen, idx, yes)))
    case Place(gen, idx, yes, answer) => PlaceFrom(p, gen, idx, yes, answer)
    case TypeAmount(valid, answer) =>
      if p.capture.None? then p
      else
        var disarmed := p.(capture := None);
        if valid then PlaceFrom(disarmed, p.capture.value.gen, p.capture.value.idx, p.capture.value.yes, answer)
        else disarmed
  }

  function RunFrom(p: Page, steps: seq<Step>): Page {
    if |steps| == 0 then p else Next(RunFrom(p, steps[..|steps| - 1]), steps[|steps| - 1])
  }

  function Run(steps: seq<Step>): Page { RunFrom(BLANK, steps) }

  // ── the handlers ─────────────────────────────────────────────────────────

  class Browser {
    var gen: nat
    var stash: map<string, MarketId>
    var newsTag: Option<NewsTag>
    var capture: Option<Capture>
    ghost var shown: seq<Button>
    ghost var newsLinks: map<nat, NewsLink>
    ghost var placed: seq<Placed>

    ghost function View(): Page
      reads this
    {
      Page(gen, stash, newsTag, capture, shown, newsLinks, placed)
    }

    constructor ()
      ensures View() == BLANK
    {
      gen, stash, newsTag, capture := 0, map[], None, None;
      shown, newsLinks, placed := [], map[], [];
    }

    method ResolveButton(g: string, idx: string) returns (m: Option<MarketId>)
      ensures m == Resolve(View(), g, idx)
    {
      if Str(gen) != g {
        return None;
      }
      m := if idx in stash then Some(stash[idx]) else None;
    }

    method NewGeneration() returns (g: nat)
      modifies this`gen
      ensures g == gen == old(gen) + 1
    {
      gen := gen + 1;
      g := gen;
    }

    method Stash(markets: seq<MarketId>)
      modifies this`stash
      ensures stash == StashOf(markets)
    {
      var m: map<string, MarketId> := map[];
      for i := 0 to |markets|
        invariant m == StashOf(markets[..i])
      {
        assert markets[..i + 1][..i] == markets[..i];
        m := m[Str(i) := markets[i]];
      }
      assert markets[..|markets|] == markets;
      stash := m;
    }

    method ShowMarkets(markets: seq<MarketId>) returns (rows: seq<Button>)
      modifies this
      ensures View() == Next(old(View()), ShowList(markets))
      ensures gen == old(gen) + 1 && shown == old(shown) + rows && |rows| == |markets|
      ensures forall i | 0 <= i < |markets| :: rows[i] == Button(Str(gen), Str(i), markets[i])
    {
      var g := NewGeneration();
      Stash(markets);
      rows := [];
      for i := 0 to |markets|
        invariant rows == RowsOf(g, markets[..i]) && |rows| == i
        invariant forall j | 0 <= j < i :: rows[j] == Button(Str(g), Str(j), markets[j])
      {
        assert markets[..i + 1][..i] == markets[..i];
        rows := rows + [Button(Str(g), Str(i), markets[i])];
      }
      assert markets[..|markets|] == markets;
      shown := shown + rows;
    }

    /** Returns whether a bet was passed on or a wallet is being asked for. */
    method ShowMarketForBet(market: MarketId, yes: bool, answer: Answer, wallets: nat, again: Answer)
      returns (armed: bool)
      modifies this
      ensures View() == Next(old(View()), OpenNewsBet(market, yes, answer, wallets, again))
      ensures !answer.Open? ==> View() == old(View())
      ensures answer.Open? ==>
                gen == old(gen) + 1 && stash == map["0" := market] && newsTag == Some(NewsTag(gen, yes)) && capture == None
      ensures placed == old(placed) +
                if answer.Open? && wallets <= 1 && again.Open? && (if yes then again.yesQuoted else again.noQuoted)
                then [Placed(Str(gen), "0", market, yes, true)] else []
      ensures armed <==> answer.Open? && (wallets > 1 || placed != old(placed))
    {
      if !answer.Open? {
        return false;
      }
      capture := None;
      var g := NewGeneration();
      Stash([market]);
      newsTag := Some(NewsTag(g, yes));
      newsLinks := newsLinks[g := NewsLink(market, yes)];
      shown := shown + RowsOf(g, [market]);
      if wallets > 1 {
        return true;
      }
      assert View() == NewsList(old(View()), market, yes);
      var bet := PlaceBetAmount(Str(g), "0", yes, again);
      armed := bet.Some?;
    }

    /** `owned` is whether the picked wallet still belongs to the user. */
    method OnBetAccount(g: string, owned: bool, answer: Answer) returns (bet: Option<Placed>)
      modifies this
      ensures View() == Next(old(View()), PickWallet(g, owned, answer))
      ensures View() == old(View()).(placed := placed) && placed == old(placed) + if bet.Some? then [bet.value] else []
      ensures bet.Some? <==>
                && owned && newsTag.Some? && Str(newsTag.value.gen) == g && Str(gen) == g && "0" in stash
                && answer.Open? && if newsTag.value.yes then answer.yesQuoted else answer.noQuoted
      ensures bet.Some? ==> bet.value == Placed(g, "0", stash["0"], newsTag.value.yes, true)
    {
      bet := None;
      var m := ResolveButton(g, "0");
      if newsTag.None? || Str(newsTag.value.gen) != g || m.None? {
        return;
      }
      if owned {
        bet := PlaceBetAmount(g, "0", newsTag.value.yes, answer);
      }
    }

    method ShowPanel(g: string, idx: string) returns (button: Option<Button>)
      modifies this
      ensures View() == Next(old(View()), Redraw(g, idx))
      ensures View() == old(View()).(shown := shown) && shown == old(shown) + if button.Some? then [button.value] else []
      ensures button == if Str(gen) == g && idx in stash then Some(Button(g, idx, stash[idx])) else None
    {
      button := None;
      var m := ResolveButton(g, idx);
      if m.Some? {
        button := Some(Button(g, idx, m.value));
        shown := shown + [button.value];
      }
    }

    method OnBuyCustom(g: string, idx: string, yes: bool)
      modifies this
      ensures View() == Next(old(View()), ArmCustom(g, idx, yes))
      ensures View() == old(View()).(capture := capture)
      ensures capture == if Str(gen) == g && idx in stash then Some(Capture(g, idx, yes)) else old(capture)
    {
      var m := ResolveButton(g, idx);
      if m.Some? {
        capture := Some(Capture(g, idx, yes));
      }
    }

    /** Returns the bet passed on to the confirmation desk, if any; only a news bet asks the
        market data again. */
    method PlaceBetAmount(g: string, idx: string, yes: bool, answer: Answer) returns (bet: Option<Placed>)
      modifies this
      ensures View() == PlaceFrom(old(View()), g, idx, yes, answer) == old(View()).(placed := placed)
      ensures bet.Some? <==>
                && Str(gen) == g && idx in stash
                && (newsTag.Some? && Str(newsTag.value.gen) == g ==>
                      answer.Open? && if yes then answer.yesQuoted else answer.noQuoted)
      ensures bet.Some? ==>
                bet.value == Placed(g, idx, stash[idx], yes, newsTag.Some? && Str(newsTag.value.gen) == g)
      ensures placed == old(placed) + if bet.Some? then [bet.value] else []
    {
      bet := None;
      var m := ResolveButton(g, idx);
      if m.None? {
        return;
      }
      var isNews := newsTag.Some? && Str(newsTag.value.gen) == g;
      if isNews {
        if !answer.Open? {
          return;
        }
        var quoted := if yes then answer.yesQuoted else answer.noQuoted;
        if !quoted {
          return;
        }
      }
      bet := Some(Placed(g, idx, m.value, yes, isNews));
      placed := placed + [bet.value];
    }

    method OnCustomAmount(valid: bool, answer: Answer) returns (bet: Option<Placed>)
      modifies this
      ensures View() == Next(old(View()), TypeAmount(valid, answer))
      ensures View() == old(View()).(capture := None, placed := placed)
      ensures !valid || old(capture).None? ==> bet.None?
      ensures valid && old(capture).Some? ==>
                var c, news := old(capture).value, newsTag.Some? && Str(newsTag.value.gen) == old(capture).value.gen;
                && (bet.Some? <==>
                      && Str(gen) == c.gen && c.idx in stash
                      && (news ==> answer.Open? && if c.yes then answer.yesQuoted else answer.noQuoted))
                && (bet.Some? ==> bet.value == Placed(c.gen, c.idx, stash[c.idx], c.yes, news))
      ensures placed == old(placed) + if bet.Some? then [bet.value] else []
    {
      bet := None;
      if capture.None? {
        return;
      }
      var pending := capture.value;
      capture := None;
      if valid {
        bet := PlaceBetAmount(pending.gen, pending.idx, pending.yes, answer);
      }
    }
  }

  // ── every run ────────────────────────────────────────────────────────────

  lemma {:induction false} StashLookup(markets: seq<MarketId>, i: nat)
    requires i < |markets|
    ensures Str(i) in StashOf(markets) && StashOf(markets)[Str(i)] == markets[i]
    decreases |markets|
  {
    var last := |markets| - 1;
    if i < last {
      StashLookup(markets[..last], i);
      if Str(i) == Str(last) {
        StrIsInjective(i, last);
      }
    }
  }

  /** A shown button is of this list, at its market, or of an older one. */
  predicate Keeps(p: Page, b: Button) {
    exists g: nat :: b.gen == Str(g) && g <= p.gen && (g == p.gen ==> b.idx in p.stash && p.stash[b.idx] == b.market)
  }

  predicate AllKeep(p: Page) { forall b <- p.shown :: Keeps(p, b) }

  lemma {:induction false} RowsKeepNew(p: Page, markets: seq<MarketId>, n: nat)
    requires n <= |markets| && p.stash == StashOf(markets)
    ensures forall b <- RowsOf(p.gen, markets[..n]) :: Keeps(p, b)
    decreases n
  {
    if n > 0 {
      var rows := RowsOf(p.gen, markets[..n]);
      assert markets[..n][..n - 1] == markets[..n - 1];
      RowsKeepNew(p, markets, n - 1);
      StashLookup(markets, n - 1);
      assert Keeps(p, Button(Str(p.gen), Str(n - 1), markets[n - 1]));
    }
  }

  lemma OlderKeeps(p: Page, q: Page, b: Button)
    requires Keeps(p, b) && p.gen < q.gen
    ensures Keeps(q, b)
  {
    var g: nat :| b.gen == Str(g) && g <= p.gen;
    assert b.gen == Str(g) && g < q.gen;
  }

  lemma NewListKeeps(p: Page, markets: seq<MarketId>)
    requires AllKeep(p)
    ensures AllKeep(NewList(p, markets))
  {
    var q := NewList(p, markets);
    forall b <- q.shown ensures Keeps(q, b) {
      if b in p.shown {
        OlderKeeps(p, q, b);
      } else {
        RowsKeepNew(q, markets, |markets|);
        assert markets[..|markets|] == markets;
      }
    }
  }

  lemma SameListKeeps(p: Page, q: Page, b: Button)
    requires Keeps(p, b) && q.gen == p.gen && q.stash == p.stash
    ensures Keeps(q, b)
  {
    var g: nat :| b.gen == Str(g) && g <= p.gen && (g == p.gen ==> b.idx in p.stash && p.stash[b.idx] == b.market);
    assert b.gen == Str(g);
  }

  lemma AllKeepKept(p: Page, step: Step)
    requires AllKeep(p)
    ensures AllKeep(Next(p, step))
  {
    var q := Next(p, step);
    if step.ShowList? {
      NewListKeeps(p, step.markets);
    } else if step.OpenNewsBet? && step.answer.Open? {
      NewListKeeps(p, [step.market]);
      forall b <- q.shown ensures Keeps(q, b) {
        SameListKeeps(NewList(p, [step.market]), q, b);
      }
    } else {
      forall b <- q.shown ensures Keeps(q, b) {
        if b in p.shown {
          SameListKeeps(p, q, b);
        } else {
          assert b.gen == Str(q.gen);
        }
      }
    }
  }

  /** What a button does now: its own market while its list is showing, and nothing after. */
  predicate ActsOnItsMarket(p: Page, b: Button) {
    Resolve(p, b.gen, b.idx) == if b.gen == Str(p.gen) then Some(b.market) else None
  }

  lemma KeepsMeansActs(p: Page, b: Button)
    requires Keeps(p, b)
    ensures ActsOnItsMarket(p, b)
  {
    var g: nat :| b.gen == Str(g) && g <= p.gen && (g == p.gen ==> b.idx in p.stash && p.stash[b.idx] == b.market);
    if b.gen == Str(p.gen) {
      StrIsInjective(g, p.gen);
    }
  }

  lemma ShownOnlyGrows(p: Page, step: Step)
    ensures p.shown <= Next(p, step).shown
  {
  }

  lemma {:induction false} AllKeepInEveryRun(p: Page, steps: seq<Step>)
    requires AllKeep(p)
    ensures AllKeep(RunFrom(p, steps)) && p.shown <= RunFrom(p, steps).shown
    decreases |steps|
  {
    if |steps| > 0 {
      AllKeepInEveryRun(p, steps[..|steps| - 1]);
      AllKeepKept(RunFrom(p, steps[..|steps| - 1]), steps[|steps| - 1]);
      ShownOnlyGrows(RunFrom(p, steps[..|steps| - 1]), steps[|steps| - 1]);
    }
  }

  /** A button shown at any moment of a session acts, at every later moment, on its own market
      or on none: on its own exactly while no newer list has been shown. */
  lemma StaleButtonsAreInert(before: seq<Step>, after: seq<Step>, b: Button)
    requires b in Run(before).shown
    ensures ActsOnItsMarket(RunFrom(Run(before), after), b)
  {
    AllKeepInEveryRun(BLANK, before);
    AllKeepInEveryRun(Run(before), after);
    KeepsMeansActs(RunFrom(Run(before), after), b);
  }

  // ── the bets that are placed ─────────────────────────────────────────────

  /** The tag that makes a bet a news bet names a list the news funnel opened. */
  predicate TagsAreNews(p: Page) {
    && (p.newsTag.Some? ==>
          p.newsTag.value.gen in p.newsLinks && p.newsTag.value.yes == p.newsLinks[p.newsTag.value.gen].yes)
    && (forall g <- p.newsLinks :: g <= p.gen)
    && (p.gen in p.newsLinks ==>
          && p.newsTag.Some? && p.newsTag.value.gen == p.gen
          && p.stash == map["0" := p.newsLinks[p.gen].market])
  }

  lemma OneMarketStash(market: MarketId)
    ensures StashOf([market]) == map["0" := market]
  {
    assert Str(0) == "0";
  }

  lemma TagsKept(p: Page, step: Step)
    requires TagsAreNews(p)
    ensures TagsAreNews(Next(p, step))
  {
    if step.OpenNewsBet? {
      OneMarketStash(step.market);
    }
  }

  lemma {:induction false} TagsAreNewsInEveryRun(steps: seq<Step>)
    ensures TagsAreNews(Run(steps))
    decreases |steps|
  {
    if |steps| > 0 {
      TagsAreNewsInEveryRun(steps[..|steps| - 1]);
      TagsKept(Run(steps[..|steps| - 1]), steps[|steps| - 1]);
    }
  }

  lemma NewsTapIsNewsList(p: Page, gen: string)
    requires TagsAreNews(p) && gen == Str(p.gen)
    ensures IsNewsTap(p, gen) <==> p.gen in p.newsLinks
  {
    if IsNewsTap(p, gen) {
      StrIsInjective(p.newsTag.value.gen, p.gen);
    }
  }

  /** By a tap or by an amount typed later, a bet is passed on exactly while its button's list
      is showing and, if the news funnel opened that list, its market is still open and quoted
      on the chosen side; it is always a bet on the button's own market. */
  lemma PlacedBetsAreFaithful(steps: seq<Step>, b: Button, yes: bool, answer: Answer, step: Step)
    requires b in Run(steps).shown
    requires step == Place(b.gen, b.idx, yes, answer) ||
             (step == TypeAmount(true, answer) && Run(steps).capture == Some(Capture(b.gen, b.idx, yes)))
    ensures var p, q := Run(steps), Next(Run(steps), step);
            var news := p.gen in p.newsLinks;
            q.placed == p.placed +
              if b.gen == Str(p.gen) && (news ==> answer.Open? && if yes then answer.yesQuoted else answer.noQuoted)
              then [Placed(b.gen, b.idx, b.market, yes, news)] else []
  {
    var p := Run(steps);
    AllKeepInEveryRun(BLANK, steps);
    KeepsMeansActs(p, b);
    TagsAreNewsInEveryRun(steps);
    if b.gen == Str(p.gen) {
      NewsTapIsNewsList(p, b.gen);
    }
  }

  /** Everything the list that is showing holds was shown on a button. */
  predicate StashIsShown(p: Page) { forall idx <- p.stash :: Button(Str(p.gen), idx, p.stash[idx]) in p.shown }

  lemma {:induction false} StashedRows(gen: nat, markets: seq<MarketId>)
    ensures forall idx <- StashOf(markets) :: Button(Str(gen), idx, StashOf(markets)[idx]) in RowsOf(gen, markets)
    decreases |markets|
  {
    if |markets| > 0 {
      StashedRows(gen, markets[..|markets| - 1]);
    }
  }

  lemma StashIsShownKept(p: Page, step: Step)
    requires StashIsShown(p)
    ensures StashIsShown(Next(p, step))
  {
    if step.ShowList? {
      StashedRows(p.gen + 1, step.markets);
    } else if step.OpenNewsBet? {
      StashedRows(p.gen + 1, [step.market]);
    }
  }

  /** A passed-on bet was shown on a button of its list, and counts as a news bet exactly when
      the news funnel opened that list. */
  predicate IsFaithful(p: Page, bet: Placed) {
    Button(bet.gen, bet.idx, bet.market) in p.shown &&
    exists g: nat :: bet.gen == Str(g) && g <= p.gen && (bet.news <==> g in p.newsLinks)
  }

  predicate AllFaithful(p: Page) { forall bet <- p.placed :: IsFaithful(p, bet) }

  lemma OldBetsStayFaithful(p: Page, step: Step, bet: Placed)
    requires IsFaithful(p, bet)
    ensures IsFaithful(Next(p, step), bet)
  {
    var g: nat :| bet.gen == Str(g) && g <= p.gen && (bet.news <==> g in p.newsLinks);
    assert bet.gen == Str(g);
  }

  lemma NewBetIsFaithful(p: Page, gen: string, idx: string, yes: bool, answer: Answer, bet: Placed)
    requires StashIsShown(p) && TagsAreNews(p)
    requires bet in PlaceFrom(p, gen, idx, yes, answer).placed && bet !in p.placed
    ensures IsFaithful(p, bet)
  {
    NewsTapIsNewsList(p, gen);
    assert bet.gen == Str(p.gen);
  }

  lemma AllFaithfulKept(p: Page, step: Step)
    requires StashIsShown(p) && TagsAreNews(p) && AllFaithful(p)
    ensures AllFaithful(Next(p, step))
  {
    var q := Next(p, step);
    forall bet <- q.placed
      ensures IsFaithful(q, bet)
    {
      if bet in p.placed {
        OldBetsStayFaithful(p, step, bet);
      } else {
        match step
        case Place(gen, idx, yes, answer) => NewBetIsFaithful(p, gen, idx, yes, answer, bet);
        case PickWallet(gen, _, answer) => NewBetIsFaithful(p, gen, "0", p.newsTag.value.yes, answer, bet);
        case TypeAmount(_, answer) =>
          var c := p.capture.value;
          NewBetIsFaithful(p.(capture := None), c.gen, c.idx, c.yes, answer, bet);
        case OpenNewsBet(market, yes, _, _, again) =>
          var listed := NewsList(p, market, yes);
          StashIsShownKept(p, OpenNewsBet(market, yes, step.answer, 2, again));
          TagsKept(p, OpenNewsBet(market, yes, step.answer, 2, again));
          NewBetIsFaithful(listed, Str(listed.gen), "0", yes, again, bet);
        case _ =>
      }
    }
  }

  lemma {:induction false} BetsStayFaithful(steps: seq<Step>)
    ensures StashIsShown(Run(steps)) && AllFaithful(Run(steps))
    decreases |steps|
  {
    if |steps| > 0 {
      var before, last := steps[..|steps| - 1], steps[|steps| - 1];
      BetsStayFaithful(before);
      TagsAreNewsInEveryRun(before);
      StashIsShownKept(Run(before), last);
      AllFaithfulKept(Run(before), last);
    }
  }

  /** Over every run, by whatever way it was placed, each bet is on the market some button with
      its generation and index showed, and it is a news bet exactly when the news funnel opened
      that generation. */
  lemma EveryBetWasShown(steps: seq<Step>, bet: Placed, g: nat)
    requires bet in Run(steps).placed && bet.gen == Str(g)
    ensures Button(bet.gen, bet.idx, bet.market) in Run(steps).shown
    ensures bet.news <==> g in Run(steps).newsLinks
  {
    BetsStayFaithful(steps);
    var p := Run(steps);
    assert IsFaithful(p, bet);
    var h: nat :| bet.gen == Str(h) && h <= p.gen && (bet.news <==> h in p.newsLinks);
    StrIsInjective(g, h);
  }

  // ── the side a link named ────────────────────────────────────────────────

  /** Opening a link of the news channel on an open market, with at most one wallet, bets once
      on that market and the link's own side, exactly when that side is quoted; with more
      wallets it bets nothing yet. */
  lemma OpenedLinkBets(p: Page, market: MarketId, yes: bool, answer: Answer, wallets: nat, again: Answer)
    ensures var q := Next(p, OpenNewsBet(market, yes, answer, wallets, again));
            && (!answer.Open? ==> q == p)
            && (answer.Open? ==>
                  && q.gen == p.gen + 1 && q.stash == map["0" := market] && q.newsTag == Some(NewsTag(q.gen, yes))
                  && q.capture == None && q.shown == p.shown + [Button(Str(q.gen), "0", market)]
                  && q.placed == p.placed +
                       if wallets <= 1 && again.Open? && (if yes then again.yesQuoted else again.noQuoted)
                       then [Placed(Str(q.gen), "0", market, yes, true)] else [])
  {
    OneMarketStash(market);
    assert RowsOf(p.gen + 1, [market]) == [Button(Str(p.gen + 1), "0", market)];
  }

  /** Step `n` opens the news list of generation `g`. */
  predicate OpensNews(steps: seq<Step>, n: nat, g: nat) {
    n < |steps| && steps[n].OpenNewsBet? && steps[n].answer.Open? && Run(steps[..n]).gen + 1 == g
  }

  lemma OpensNewsInLonger(before: seq<Step>, last: Step, n: nat, g: nat)
    ensures OpensNews(before + [last], n, g)
       <==> OpensNews(before, n, g) ||
            (n == |before| && last.OpenNewsBet? && last.answer.Open? && Run(before).gen + 1 == g)
  {
    if n <= |before| {
      assert (before + [last])[..n] == before[..n];
      assert before[..|before|] == before;
    }
  }

  lemma LinksGrow(p: Page, step: Step)
    ensures Next(p, step).newsLinks ==
              if step.OpenNewsBet? && step.answer.Open? then p.newsLinks[p.gen + 1 := NewsLink(step.market, step.yes)]
              else p.newsLinks
  {
  }

  /** The link on record for a list is the one that opened it. */
  predicate IsLinkOf(steps: seq<Step>, links: map<nat, NewsLink>, n: nat, g: nat) {
    OpensNews(steps, n, g) && g in links && links[g] == NewsLink(steps[n].market, steps[n].yes)
  }

  lemma {:induction false} LinksAreOpenings(steps: seq<Step>, g: nat)
    ensures g in Run(steps).newsLinks ==> exists n: nat :: OpensNews(steps, n, g)
    ensures forall n: nat | OpensNews(steps, n, g) :: IsLinkOf(steps, Run(steps).newsLinks, n, g)
    decreases |steps|
  {
    if |steps| > 0 {
      var before, last := steps[..|steps| - 1], steps[|steps| - 1];
      LinksAreOpenings(before, g);
      TagsAreNewsInEveryRun(before);
      LinksGrow(Run(before), last);
      assert steps == before + [last];
      forall n: nat | OpensNews(steps, n, g)
        ensures IsLinkOf(steps, Run(steps).newsLinks, n, g)
      {
        OpensNewsInLonger(before, last, n, g);
        if OpensNews(before, n, g) {
          assert IsLinkOf(before, Run(before).newsLinks, n, g);
        }
      }
      if g in Run(before).newsLinks {
        var n: nat :| OpensNews(before, n, g);
        OpensNewsInLonger(before, last, n, g);
      } else if g in Run(steps).newsLinks {
        OpensNewsInLonger(before, last, |before|, g);
      }
    }
  }

  /** While the list a link opened is showing, picking a wallet that is still owned bets once on
      that link's market and side, exactly when that side is quoted. */
  lemma PickedWalletBets(steps: seq<Step>, n: nat, owned: bool, answer: Answer)
    requires OpensNews(steps, n, Run(steps).gen)
    ensures var p := Run(steps);
            Next(p, PickWallet(Str(p.gen), owned, answer)) == p.(placed := p.placed +
              if owned && answer.Open? && (if steps[n].yes then answer.yesQuoted else answer.noQuoted)
              then [Placed(Str(p.gen), "0", steps[n].market, steps[n].yes, true)] else [])
  {
    LinksAreOpenings(steps, Run(steps).gen);
    assert IsLinkOf(steps, Run(steps).newsLinks, n, Run(steps).gen);
    TagsAreNewsInEveryRun(steps);
  }

  /** A wallet picked for any other list bets nothing. */
  lemma OtherWalletPicksAreInert(steps: seq<Step>, gen: string, owned: bool, answer: Answer)
    requires gen != Str(Run(steps).gen) || !exists n: nat :: OpensNews(steps, n, Run(steps).gen)
    ensures Next(Run(steps), PickWallet(gen, owned, answer)) == Run(steps)
  {
    LinksAreOpenings(steps, Run(steps).gen);
    TagsAreNewsInEveryRun(steps);
    if gen == Str(Run(steps).gen) {
      NewsTapIsNewsList(Run(steps), gen);
    }
  }

  /** Over every run, a bet whose side was not tapped on a button, but placed by opening a link
      or by picking a wallet, is on the market and the side of the link that opened its list. */
  lemma UntappedBetsFollowTheirLink(steps: seq<Step>, step: Step)
    requires step.OpenNewsBet? || step.PickWallet?
    ensures var p, q, run := Run(steps), Next(Run(steps), step), steps + [step];
            q.placed == p.placed ||
            exists n: nat ::
              && OpensNews(run, n, q.gen)
              && q.placed == p.placed + [Placed(Str(q.gen), "0", run[n].market, run[n].yes, true)]
  {
    var p, run := Run(steps), steps + [step];
    if step.OpenNewsBet? {
      OpenedLinkBets(p, step.market, step.yes, step.answer, step.wallets, step.again);
      assert run[..|steps|] == steps;
      assert step.answer.Open? ==> OpensNews(run, |steps|, p.gen + 1);
    } else if step.gen == Str(p.gen) && exists n: nat :: OpensNews(steps, n, p.gen) {
      var n: nat :| OpensNews(steps, n, p.gen);
      PickedWalletBets(steps, n, step.owned, step.answer);
      assert run[..n] == steps[..n];
      assert OpensNews(run, n, p.gen);
    } else {
      OtherWalletPicksAreInert(steps, step.gen, step.owned, step.answer);
    }
  }

  /** Asking for an amount at a button arms exactly that button and the side that was tapped,
      while its list is showing, and nothing after. */
  lemma ArmedByItsButton(steps: seq<Step>, b: Button, yes: bool)
    requires b in Run(steps).shown
    ensures var p := Run(steps);
            Next(p, ArmCustom(b.gen, b.idx, yes)) ==
              if b.gen == Str(p.gen) then p.(capture := Some(Capture(b.gen, b.idx, yes))) else p
  {
    AllKeepInEveryRun(BLANK, steps);
    KeepsMeansActs(Run(steps), b);
  }
}
