/** The start payloads behind the posted buttons: how a bet link is printed, how the
    bot reads it back, and which bet it opens. */
module DeepLink {
  import opened Wrappers
  import opened Publishing
  import opened Text

  // ── decimal numbers ──────────────────────────────────────────────────────

  function Digit(n: nat): char
    requires n < 10
  {
    '0' + n as char
  }

  predicate IsDigit(c: char) { '0' <= c <= '9' }

  function Decimal(n: nat): string {
    if n < 10 then [Digit(n)] else Decimal(n / 10) + [Digit(n % 10)]
  }

  /** Python's `str.isdigit` on ASCII text: false for the empty string. */
  predicate IsDigits(s: string) { |s| > 0 && forall c <- s :: IsDigit(c) }

  function Value(s: string): nat
    requires forall c <- s :: IsDigit(c)
  {
    if |s| == 0 then 0
    else
      assert IsDigit(s[|s| - 1]);
      10 * Value(s[..|s| - 1]) + (s[|s| - 1] as int - '0' as int)
  }

  lemma {:induction false} DecimalReadsBack(n: nat)
    ensures IsDigits(Decimal(n)) && Value(Decimal(n)) == n
  {
    if n < 10 {
      assert Decimal(n) == [Digit(n)] && Decimal(n)[..0] == [];
    } else {
      DecimalReadsBack(n / 10);
      var s := Decimal(n);
      assert s[..|s| - 1] == Decimal(n / 10) && s[|s| - 1] == Digit(n % 10);
    }
  }

  function Power10(k: nat): nat { if k == 0 then 1 else 10 * Power10(k - 1) }

  lemma {:induction false} DecimalLength(n: nat, k: nat)
    requires k > 0 && n < Power10(k)
    ensures |Decimal(n)| <= k
  {
    if n >= 10 {
      assert Power10(1) == 10;
      assert k > 1;
      DecimalLength(n / 10, k - 1);
    }
  }

  // ── splitting at dashes ──────────────────────────────────────────────────

  /** The position of the first dash, or the length if there is none. */
  function FirstDash(s: string): (k: nat)
    ensures k <= |s| && '-' !in s[..k]
    ensures k < |s| ==> s[k] == '-'
  {
    if |s| == 0 || s[0] == '-' then 0
    else
      var k := 1 + FirstDash(s[1..]);
      assert s[..k] == [s[0]] + s[1..][..k - 1];
      k
  }

  lemma {:induction false} DashAfter(a: string, b: string)
    requires '-' !in a
    ensures FirstDash(a + "-" + b) == |a|
    decreases |a|
  {
    if |a| > 0 {
      assert a == [a[0]] + a[1..];
      assert (a + "-" + b)[1..] == a[1..] + "-" + b;
      DashAfter(a[1..], b);
    }
  }

  function Split(s: string): seq<string> {
    var k := FirstDash(s);
    if k == |s| then [s] else [s[..k]] + Split(s[k + 1..])
  }

  lemma SplitWhole(s: string)
    ensures |Split(s)| == 1 <==> '-' !in s
    ensures '-' !in s ==> Split(s) == [s]
  {
    var k := FirstDash(s);
    if k == |s| {
      assert s[..k] == s;
    } else {
      assert s[k] in s;
      assert |Split(s[k + 1..])| >= 1;
    }
  }

  lemma SplitAtDash(a: string, b: string)
    requires '-' !in a
    ensures Split(a + "-" + b) == [a] + Split(b)
  {
    var s := a + "-" + b;
    DashAfter(a, b);
    assert s[..|a|] == a && s[|a| + 1..] == b;
  }

  lemma SplitParts(s: string)
    requires |Split(s)| == 2
    ensures var a, b := Split(s)[0], Split(s)[1]; s == a + "-" + b && '-' !in a && '-' !in b
  {
    var k := FirstDash(s);
    var rest := s[k + 1..];
    assert Split(s) == [s[..k]] + Split(rest);
    assert |Split(rest)| == 1;
    SplitWhole(rest);
    assert s == s[..k] + "-" + rest;
  }

  /** Splitting gives two parts exactly when they are the two sides of the only dash. */
  lemma SplitInTwo(s: string, a: string, b: string)
    ensures Split(s) == [a, b] <==> s == a + "-" + b && '-' !in a && '-' !in b
  {
    if Split(s) == [a, b] {
      SplitParts(s);
    }
    if s == a + "-" + b && '-' !in a && '-' !in b {
      SplitAtDash(a, b);
      SplitWhole(b);
    }
  }

  // ── reading a start argument ─────────────────────────────────────────────

  datatype StartArg =
    | NewsBet(item: nat, index: nat, legacy: bool)
    | NewsItem(item: nat)
    | Referral(code: string)
    | Ignored

  function ReadArg(a: string): StartArg {
    if |a| >= 3 && Lower(a[..3]) == "nb-" then ReadBet(Split(a[3..]))
    else if |a| >= 2 && Lower(a[..2]) == "r-" then Referral(a[2..])
    else if |a| >= 2 && Lower(a[..2]) == "n-" && IsDigits(a[2..]) then NewsItem(Value(a[2..]))
    else Ignored
  }

  function ReadBet(parts: seq<string>): StartArg {
    if |parts| != 2 || !IsDigits(parts[0]) then Ignored
    else
      var index := Lower(parts[1]);
      if IsDigits(index) then NewsBet(Value(parts[0]), Value(index), false)
      else if index == "y" || index == "n" then NewsBet(Value(parts[0]), if index == "y" then 0 else 1, true)
      else Ignored
  }

  /** The payload of the button posted for outcome `index` of an item. */
  function BetPayload(item: nat, index: nat): string { "nb-" + Decimal(item) + "-" + Decimal(index) }

  lemma DigitsAreLower(s: string)
    ensures (forall c <- s :: IsDigit(c)) ==> Lower(s) == s
    ensures IsDigits(Lower(s)) <==> IsDigits(s)
  {
    forall i | 0 <= i < |s|
      ensures IsDigit(LowerChar(s[i])) <==> IsDigit(s[i])
      ensures IsDigit(s[i]) ==> Lower(s)[i] == s[i]
    {
    }
    if IsDigits(Lower(s)) {
      forall i | 0 <= i < |s|
        ensures IsDigit(s[i])
      {
        assert Lower(s)[i] in Lower(s);
      }
    }
    if IsDigits(s) {
      assert Lower(s) == s;
    }
  }

  lemma ReadsTwoParts(i: string, n: string)
    requires '-' !in i && '-' !in n
    ensures ReadArg("nb-" + i + "-" + n) == ReadBet([i, n])
  {
    var a := "nb-" + i + "-" + n;
    assert a[..3] == "nb-" && a[3..] == i + "-" + n;
    assert Lower("nb-") == "nb-";
    SplitInTwo(a[3..], i, n);
  }

  /** The link parses back to exactly the item and index it was printed from. */
  lemma BetLinkRoundTrip(item: nat, index: nat)
    ensures ReadArg(BetPayload(item, index)) == NewsBet(item, index, false)
  {
    DecimalReadsBack(item);
    DecimalReadsBack(index);
    DigitsAreLower(Decimal(index));
    ReadsTwoParts(Decimal(item), Decimal(index));
  }

  lemma ReadsSide(i: string, side: char)
    requires IsDigits(i) && (side == 'y' || side == 'n')
    ensures ReadBet([i, [side]]) == NewsBet(Value(i), if side == 'y' then 0 else 1, true)
  {
    assert Lower([side]) == [side];
    assert [side][0] == side && side in [side] && !IsDigit(side);
  }

  /** The links of older posts, which name a side, still read back: y is the first outcome. */
  lemma LegacyLinkRoundTrip(item: nat, side: char)
    requires side == 'y' || side == 'n'
    ensures ReadArg("nb-" + Decimal(item) + "-" + [side]) == NewsBet(item, if side == 'y' then 0 else 1, true)
  {
    DecimalReadsBack(item);
    ReadsTwoParts(Decimal(item), [side]);
    ReadsSide(Decimal(item), side);
  }

  /** Only `nb-<digits>-<digits>` opens an indexed bet, and it opens that one. */
  lemma OnlyBetLinksBet(a: string, item: nat, index: nat)
    ensures ReadArg(a) == NewsBet(item, index, false)
       <==> exists i, n :: |a| >= 3 && Lower(a[..3]) == "nb-" && a[3..] == i + "-" + n
                           && IsDigits(i) && IsDigits(n) && Value(i) == item && Value(n) == index
  {
    if |a| >= 3 && Lower(a[..3]) == "nb-" {
      var parts := Split(a[3..]);
      if ReadArg(a) == NewsBet(item, index, false) {
        DigitsAreLower(parts[1]);
        SplitInTwo(a[3..], parts[0], parts[1]);
      }
      forall i, n | a[3..] == i + "-" + n && IsDigits(i) && IsDigits(n) && Value(i) == item && Value(n) == index
        ensures ReadArg(a) == NewsBet(item, index, false)
      {
        SplitInTwo(a[3..], i, n);
        DigitsAreLower(n);
      }
    }
  }

  /** What follows `r-` is a referral code, whatever it is; what follows `n-` is an item, when it
      is a number. */
  lemma OtherArgumentsRead(a: string, code: string, item: nat)
    ensures ReadArg(a) == Referral(code) <==> |a| >= 2 && a[0] in "rR" && a[1] == '-' && a[2..] == code
    ensures ReadArg("n-" + Decimal(item)) == NewsItem(item)
    ensures ReadArg(a).NewsItem? ==> |a| > 2 && a[0] in "nN" && a[1] == '-' && IsDigits(a[2..]) && Value(a[2..]) == ReadArg(a).item
  {
    if |a| >= 2 {
      assert Lower(a[..2]) == [LowerChar(a[0]), LowerChar(a[1])];
      assert |a| >= 3 ==> Lower(a[..3])[0] == LowerChar(a[0]);
    }
    var n := "n-" + Decimal(item);
    assert n[2..] == Decimal(item) && n[..2] == "n-";
    assert Lower("n-") == "n-";
    assert |n| >= 3 ==> Lower(n[..3])[1] == '-';
    DecimalReadsBack(item);
  }

  /** A payload fits the 64 characters a start link may carry. */
  lemma PayloadFits(item: nat, index: nat)
    requires item < Power10(19) && index < Power10(2)
    ensures |BetPayload(item, index)| <= 64
  {
    DecimalLength(item, 19);
    DecimalLength(index, 2);
  }

  // ── opening it ───────────────────────────────────────────────────────────

  datatype Target = OpenItem | OpenBet(market: string, yes: bool)

  predicate BuysYes(side: string) { var s := if side == "" then "yes" else side; s[0] == 'Y' || s[0] == 'y' }

  function OpenNewsBet(items: map<ItemId, Item>, id: ItemId, index: nat, legacy: bool): Target {
    var outcomes := if id in items then items[id].outcomes else [];
    var market := if id in items then items[id].market else "";
    if !legacy && index < |outcomes| then
      (if outcomes[index].market == "" then OpenItem
       else OpenBet(outcomes[index].market, BuysYes(outcomes[index].side)))
    else if legacy && outcomes == [] && market != "" && index <= 1 then OpenBet(market, index == 0)
    else OpenItem
  }

  /** What the posted text of an outcome offered. */
  function Offered(o: Outcome): Target {
    if o.market == "" then OpenItem else OpenBet(o.market, BuysYes(o.side))
  }

  function Tap(items: map<ItemId, Item>, payload: string): Target {
    match ReadArg(payload)
    case NewsBet(id, index, legacy) => OpenNewsBet(items, id, index, legacy)
    case _ => OpenItem
  }

  // ── posted buttons keep their meaning ────────────────────────────────────

  /** A snapshot with outcomes is the one the item was resolved to. */
  ghost predicate IsStoredCta(w: World, id: ItemId, outcomes: seq<Outcome>) {
    outcomes != [] ==> id in w.items && w.items[id].resolved && w.items[id].outcomes == outcomes
  }

  ghost predicate ButtonsInvariant(w: World) {
    && (forall i <- w.items :: w.items[i].outcomes != [] ==> w.items[i].resolved)
    && (forall p <- w.desks :: (w.desks[p].Selected? || w.desks[p].Claimed?) ==>
          IsStoredCta(w, w.desks[p].key.item, w.desks[p].outcomes))
    && (forall post <- w.posts :: IsStoredCta(w, post.key.item, post.outcomes))
  }

  lemma FinishKeepsCta(w: World, p: Publisher, id: ItemId)
    requires id in w.items
    ensures var items := NextFinish(w, p).items;
            && id in items && items[id].resolved == w.items[id].resolved
            && items[id].outcomes == w.items[id].outcomes && items[id].market == w.items[id].market
  {
  }

  /** No step changes the outcomes of an item that has been resolved. */
  lemma ResolvedOnce(w: World, s: Step, id: ItemId)
    requires id in w.items && w.items[id].resolved
    ensures id in Next(w, s).items && Next(w, s).items[id].resolved
    ensures Next(w, s).items[id].outcomes == w.items[id].outcomes
    ensures Next(w, s).items[id].market == w.items[id].market
  {
    if s.Finish? {
      FinishKeepsCta(w, s.pub, id);
    }
  }

  lemma StoredCtaStays(w: World, s: Step, id: ItemId, outcomes: seq<Outcome>)
    requires IsStoredCta(w, id, outcomes)
    ensures IsStoredCta(Next(w, s), id, outcomes)
  {
    if outcomes != [] {
      ResolvedOnce(w, s, id);
    }
  }

  lemma ItemsStayResolved(w: World, s: Step, i: ItemId)
    requires forall j <- w.items :: w.items[j].outcomes != [] ==> w.items[j].resolved
    requires i in Next(w, s).items && Next(w, s).items[i].outcomes != []
    ensures Next(w, s).items[i].resolved
  {
    if i in w.items && w.items[i].resolved {
      ResolvedOnce(w, s, i);
    }
  }

  /** A snapshot on a desk was there before, or was just taken from its item. */
  lemma SnapshotsComeFromItems(w: World, s: Step, p: Publisher)
    ensures var d, was := DeskOf(Next(w, s), p), DeskOf(w, p);
            d.Selected? || d.Claimed? ==>
              if (was.Selected? || was.Claimed?) && was.key == d.key && was.outcomes == d.outcomes then true
              else d.key.item in w.items && d.outcomes == w.items[d.key.item].outcomes
  {
    if s.Select? {
      SelectTakesSnapshot(w, s.pub, s.key, p);
    } else {
      OthersTakeNoSnapshot(w, s, p);
    }
  }

  lemma SelectTakesSnapshot(w: World, pub: Publisher, key: Key, p: Publisher)
    ensures var d := DeskOf(Next(w, Select(pub, key)), p);
            d == DeskOf(w, p) || d.Reconciling? ||
            (d.Selected? && d.key == key && key.item in w.items && d.outcomes == w.items[key.item].outcomes)
  {
  }

  lemma InsertKeepsSnapshot(w: World, pub: Publisher, p: Publisher)
    ensures var d, was := DeskOf(NextInsert(w, pub), p), DeskOf(w, p);
            d.Selected? || d.Claimed? ==>
              (was.Selected? || was.Claimed?) && was.key == d.key && was.outcomes == d.outcomes
  {
  }

  lemma FinishTakesNoSnapshot(w: World, pub: Publisher, p: Publisher)
    ensures var d, was := DeskOf(NextFinish(w, pub), p), DeskOf(w, p);
            d.Selected? || d.Claimed? ==> d == was
  {
  }

  lemma OthersTakeNoSnapshot(w: World, s: Step, p: Publisher)
    requires !s.Select?
    ensures var d, was := DeskOf(Next(w, s), p), DeskOf(w, p);
            d.Selected? || d.Claimed? ==>
              (was.Selected? || was.Claimed?) && was.key == d.key && was.outcomes == d.outcomes
  {
    if s.Insert? {
      InsertKeepsSnapshot(w, s.pub, p);
    } else if s.Finish? {
      FinishTakesNoSnapshot(w, s.pub, p);
    }
  }

  lemma DesksKeepSnapshots(w: World, s: Step, p: Publisher)
    requires ButtonsInvariant(w)
    ensures var d := DeskOf(Next(w, s), p);
            d.Selected? || d.Claimed? ==> IsStoredCta(Next(w, s), d.key.item, d.outcomes)
  {
    var d, was := DeskOf(Next(w, s), p), DeskOf(w, p);
    if d.Selected? || d.Claimed? {
      SnapshotsComeFromItems(w, s, p);
      if was.Selected? || was.Claimed? {
        assert p in w.desks && IsStoredCta(w, was.key.item, was.outcomes);
      }
      assert IsStoredCta(w, d.key.item, d.outcomes);
      StoredCtaStays(w, s, d.key.item, d.outcomes);
    }
  }

  lemma PostsKeepSnapshots(w: World, s: Step, post: Post)
    requires ButtonsInvariant(w) && post in Next(w, s).posts
    ensures IsStoredCta(Next(w, s), post.key.item, post.outcomes)
  {
    if post !in w.posts {
      assert s.pub in w.desks && w.desks[s.pub].Claimed?;
    }
    StoredCtaStays(w, s, post.key.item, post.outcomes);
  }

  lemma NextKeepsButtons(w: World, s: Step)
    requires ButtonsInvariant(w)
    ensures ButtonsInvariant(Next(w, s))
  {
    var w' := Next(w, s);
    forall i <- w'.items | w'.items[i].outcomes != []
      ensures w'.items[i].resolved
    {
      ItemsStayResolved(w, s, i);
    }
    forall p <- w'.desks | w'.desks[p].Selected? || w'.desks[p].Claimed?
      ensures IsStoredCta(w', w'.desks[p].key.item, w'.desks[p].outcomes)
    {
      DesksKeepSnapshots(w, s, p);
      assert DeskOf(w', p) == w'.desks[p];
    }
    forall post <- w'.posts
      ensures IsStoredCta(w', post.key.item, post.outcomes)
    {
      PostsKeepSnapshots(w, s, post);
    }
  }

  lemma {:induction false} ButtonsInvariantInEveryRun(run: seq<Step>)
    ensures ButtonsInvariant(Run(run))
    decreases |run|
  {
    if |run| > 0 {
      ButtonsInvariantInEveryRun(run[..|run| - 1]);
      NextKeepsButtons(Run(run[..|run| - 1]), run[|run| - 1]);
    }
  }

  /** Over every run of crawls, renders, re-renders, admin actions and publishing, and at
      every later moment, the link of a posted button opens the market and side that
      stood at its index in the posted snapshot. */
  lemma PostedButtonsKeepMeaning(run: seq<Step>, post: Post, index: nat)
    requires post in Run(run).posts && index < |post.outcomes|
    ensures Tap(Run(run).items, BetPayload(post.key.item, index)) == Offered(post.outcomes[index])
    ensures var o := post.outcomes[index];
            o.market != "" && o.side in {"yes", "no"} ==> Offered(o) == OpenBet(o.market, o.side == "yes")
  {
    ButtonsInvariantInEveryRun(run);
    BetLinkRoundTrip(post.key.item, index);
    assert IsStoredCta(Run(run), post.key.item, post.outcomes);
  }

  /** The payload is `nb-<i>-<n>` with a number for `i`, in whatever case. */
  predicate IsBetLink(payload: string, i: string, n: string) {
    |payload| >= 3 && Lower(payload[..3]) == "nb-" && payload[3..] == i + "-" + n && IsDigits(i) && '-' !in n
  }

  /** The link names an outcome its item offers, or is an old link on an item that has one
      market and no stored outcomes. */
  predicate NamesAnOffer(items: map<ItemId, Item>, i: string, n: string)
    requires IsDigits(i)
  {
    Value(i) in items &&
    var item := items[Value(i)];
    if IsDigits(n) then Value(n) < |item.outcomes| && item.outcomes[Value(n)].market != ""
    else (Lower(n) == "y" || Lower(n) == "n") && item.outcomes == [] && item.market != ""
  }

  /** What a link that names an offer opens. */
  function Named(items: map<ItemId, Item>, i: string, n: string): Target
    requires IsDigits(i) && NamesAnOffer(items, i, n)
  {
    var item := items[Value(i)];
    if IsDigits(n) then Offered(item.outcomes[Value(n)]) else OpenBet(item.market, Lower(n) == "y")
  }

  lemma TapOfBetLink(items: map<ItemId, Item>, payload: string, i: string, n: string)
    requires IsBetLink(payload, i, n)
    ensures if NamesAnOffer(items, i, n) then Tap(items, payload) == Named(items, i, n)
            else Tap(items, payload) == OpenItem
  {
    SplitInTwo(payload[3..], i, n);
    DigitsAreLower(n);
  }

  lemma TapOfOtherText(items: map<ItemId, Item>, payload: string)
    requires Tap(items, payload).OpenBet?
    ensures |payload| >= 3 && |Split(payload[3..])| == 2
    ensures IsBetLink(payload, Split(payload[3..])[0], Split(payload[3..])[1])
  {
    SplitParts(payload[3..]);
  }

  /** Whatever text is tapped, it opens a bet exactly when it is a bet link that names an offer
      of its item, and then that very offer. */
  lemma NoUnofferedBet(items: map<ItemId, Item>, payload: string)
    ensures Tap(items, payload).OpenBet? <==> exists i, n :: IsBetLink(payload, i, n) && NamesAnOffer(items, i, n)
    ensures forall i, n | IsBetLink(payload, i, n) && NamesAnOffer(items, i, n) ::
              Tap(items, payload) == Named(items, i, n)
  {
    forall i, n | IsBetLink(payload, i, n)
      ensures if NamesAnOffer(items, i, n) then Tap(items, payload) == Named(items, i, n)
              else Tap(items, payload) == OpenItem
    {
      TapOfBetLink(items, payload, i, n);
    }
    if Tap(items, payload).OpenBet? {
      TapOfOtherText(items, payload);
      var i, n := Split(payload[3..])[0], Split(payload[3..])[1];
      assert IsBetLink(payload, i, n);
    }
  }
}
