/** The layout of a post: title, market question, summary, source link and footer, within
    the platform's length cap. */
module CaptionLayout {
  import opened Wrappers
  import opened Markup
  import opened Caption

  /** The texts of one post. An empty question, url or footer is an absent one; the summary no
      longer starts with the title. */
  datatype Post = Post(title: string, question: string, summary: string, url: string, source: string, footer: string)

  function Join(lines: seq<string>): string {
    if |lines| == 0 then ""
    else if |lines| == 1 then lines[0]
    else lines[0] + BREAK + Join(lines[1..])
  }

  // ── the blocks of a post ─────────────────────────────────────────────────

  function TitleBlock(text: string): seq<Piece> { [Tag("b"), Text(text), Tag("/b")] }

  function MarketBlock(question: string): seq<Piece> { [Text(MARKET_SIGN + FitPlain(question, QUESTION_MAX))] }

  function Anchor(url: string): string { "a href=\"" + Escape(url) + "\"" }

  function LinkBlock(url: string, words: string): seq<Piece> {
    [Text(LINK_SIGN), Tag(Anchor(url)), Text(words), Tag("/a")]
  }

  function SourceBlocks(post: Post): seq<seq<Piece>> {
    if post.url == "" then [] else [LinkBlock(post.url, post.source)]
  }

  function FooterBlocks(post: Post): seq<seq<Piece>> { if post.footer == "" then [] else [[Text(post.footer)]] }

  function MarketBlocks(post: Post): seq<seq<Piece>> {
    if post.question == "" then [] else [MarketBlock(post.question)]
  }

  function Printed(blocks: seq<seq<Piece>>): (lines: seq<string>)
    ensures |lines| == |blocks|
  {
    if |blocks| == 0 then [] else [Print(blocks[0])] + Printed(blocks[1..])
  }

  /** The pieces of a whole post, its blocks separated by blank lines. */
  function Pieces(blocks: seq<seq<Piece>>): seq<Piece> {
    if |blocks| == 0 then []
    else if |blocks| == 1 then blocks[0]
    else blocks[0] + [Text(BREAK)] + Pieces(blocks[1..])
  }

  function Tail(post: Post): string { Join(Printed(SourceBlocks(post) + FooterBlocks(post))) }

  function TitleBudget(tail: nat, cap: int): (b: int)
    ensures TITLE_MIN <= b <= TITLE_MAX
  {
    Min(Max(TITLE_MIN, cap - tail - 11), TITLE_MAX)
  }

  function TitleText(post: Post, cap: int): string { FitPlain(post.title, TitleBudget(|Tail(post)|, cap)) }

  function Opening(post: Post, cap: int): seq<seq<Piece>> {
    [TitleBlock(TitleText(post, cap))] + MarketBlocks(post)
  }

  function SummaryBudget(post: Post, cap: int): int {
    cap - |Join(Printed(Opening(post, cap)))| - |Tail(post)| - 4
  }

  function SummaryText(post: Post, cap: int): string {
    if SummaryBudget(post, cap) > SUMMARY_FLOOR then FitPlain(post.summary, SummaryBudget(post, cap)) else ""
  }

  function SummaryBlocks(post: Post, cap: int): seq<seq<Piece>> {
    if SummaryText(post, cap) == "" then [] else [[Text(SummaryText(post, cap))]]
  }

  /** Everything, and what is left when everything is too long. */
  function Full(post: Post, cap: int): seq<seq<Piece>> {
    Opening(post, cap) + SummaryBlocks(post, cap) + SourceBlocks(post) + [[Text(post.footer)]]
  }

  function Short(post: Post, cap: int): seq<seq<Piece>> {
    Opening(post, cap) + (SourceBlocks(post) + FooterBlocks(post))
  }

  function Layout(post: Post, cap: int): seq<seq<Piece>> {
    if |Join(Printed(Full(post, cap)))| > cap then Short(post, cap) else Full(post, cap)
  }

  function CaptionOf(post: Post, cap: int): string { Join(Printed(Layout(post, cap))) }

  // ── the printer ──────────────────────────────────────────────────────────

  lemma PrintOne(p: Piece)
    ensures Print([p]) == PrintPiece(p)
  {
    assert [p][1..] == [];
  }

  lemma PrintTagged(open: string, words: string, close: string)
    ensures Print([Tag(open), Text(words), Tag(close)]) == ("<" + open + ">") + (Escape(words) + ("<" + close + ">"))
  {
    var pieces := [Tag(open), Text(words), Tag(close)];
    assert pieces[1..] == [Text(words), Tag(close)] && pieces[1..][1..] == [Tag(close)];
    PrintOne(Tag(close));
  }

  lemma PrintTitle(text: string)
    ensures Print(TitleBlock(text)) == "<b>" + Escape(text) + "</b>"
  {
    PrintTagged("b", text, "/b");
    assert "<" + "b" + ">" == "<b>" && "<" + "/b" + ">" == "</b>";
  }

  lemma PrintMarket(question: string)
    ensures Print(MarketBlock(question)) == MARKET_SIGN + Escape(FitPlain(question, QUESTION_MAX))
  {
    PrintOne(MarketBlock(question)[0]);
    EscapeAppend(MARKET_SIGN, FitPlain(question, QUESTION_MAX));
    EscapeIsIdentity(MARKET_SIGN);
  }

  lemma PrintSigned(sign: string, open: string, words: string, close: string)
    ensures Print([Text(sign), Tag(open), Text(words), Tag(close)]) ==
            Escape(sign) + (("<" + open + ">") + (Escape(words) + ("<" + close + ">")))
  {
    assert [Text(sign), Tag(open), Text(words), Tag(close)][1..] == [Tag(open), Text(words), Tag(close)];
    PrintTagged(open, words, close);
  }

  function LinkHtml(url: string, words: string): string {
    LINK_SIGN + (("<" + Anchor(url) + ">") + (Escape(words) + "</a>"))
  }

  lemma PrintLink(url: string, words: string)
    ensures Print(LinkBlock(url, words)) == LinkHtml(url, words)
  {
    PrintSigned(LINK_SIGN, Anchor(url), words, "/a");
    assert "<" + "/a" + ">" == "</a>";
    EscapeIsIdentity(LINK_SIGN);
  }

  lemma {:induction false} PrintedAppend(a: seq<seq<Piece>>, b: seq<seq<Piece>>)
    ensures Printed(a + b) == Printed(a) + Printed(b)
    decreases |a|
  {
    if |a| == 0 {
      assert a + b == b;
    } else {
      assert (a + b)[1..] == a[1..] + b;
      PrintedAppend(a[1..], b);
    }
  }

  lemma PrintedOne(block: seq<Piece>)
    ensures Printed([block]) == [Print(block)]
  {
    assert [block][1..] == [];
  }

  /** A printed part is listed only if it is not empty. */
  function One(line: string): seq<string> { if line == "" then [] else [line] }

  function SourceHtml(post: Post): string {
    if post.url == "" then "" else LinkHtml(post.url, post.source)
  }

  function MarketHtml(post: Post): string {
    if post.question == "" then "" else MARKET_SIGN + Escape(FitPlain(post.question, QUESTION_MAX))
  }

  lemma SourceLine(post: Post)
    ensures Printed(SourceBlocks(post)) == One(SourceHtml(post))
  {
    if post.url != "" {
      PrintLink(post.url, post.source);
      PrintedOne(LinkBlock(post.url, post.source));
    }
  }

  lemma TextLine(text: string)
    ensures Printed(if text == "" then [] else [[Text(text)]]) == One(Escape(text))
  {
    EscapeIsNoShorter(text);
    PrintOne(Text(text));
    PrintedOne([Text(text)]);
  }

  lemma MarketLine(post: Post)
    ensures Printed(MarketBlocks(post)) == One(MarketHtml(post))
  {
    if post.question != "" {
      PrintMarket(post.question);
      PrintedOne(MarketBlock(post.question));
    }
  }

  lemma TailLines(post: Post)
    ensures Printed(SourceBlocks(post) + FooterBlocks(post)) == One(SourceHtml(post)) + One(Escape(post.footer))
  {
    SourceLine(post);
    TextLine(post.footer);
    PrintedAppend(SourceBlocks(post), FooterBlocks(post));
  }

  lemma OpeningLines(post: Post, cap: int)
    ensures Printed(Opening(post, cap)) == ["<b>" + Escape(TitleText(post, cap)) + "</b>"] + One(MarketHtml(post))
  {
    var title := TitleBlock(TitleText(post, cap));
    PrintTitle(TitleText(post, cap));
    PrintedOne(title);
    MarketLine(post);
    PrintedAppend([title], MarketBlocks(post));
  }

  lemma FullLines(post: Post, cap: int)
    ensures Printed(Full(post, cap)) ==
            Printed(Opening(post, cap)) + One(Escape(SummaryText(post, cap))) + One(SourceHtml(post))
            + [Escape(post.footer)]
  {
    var opening, summary, source := Opening(post, cap), SummaryBlocks(post, cap), SourceBlocks(post);
    PrintedAppend(opening + summary + source, [[Text(post.footer)]]);
    PrintedAppend(opening + summary, source);
    PrintedAppend(opening, summary);
    TextLine(SummaryText(post, cap));
    SourceLine(post);
    PrintOne(Text(post.footer));
    PrintedOne([Text(post.footer)]);
  }

  lemma ShortLines(post: Post, cap: int)
    ensures Printed(Short(post, cap)) ==
            Printed(Opening(post, cap)) + (One(SourceHtml(post)) + One(Escape(post.footer)))
  {
    TailLines(post);
    PrintedAppend(Opening(post, cap), SourceBlocks(post) + FooterBlocks(post));
  }

  lemma JoinUpToTwo(a: string, b: string)
    ensures Join([a] + One(b)) == a + (if b == "" then "" else BREAK + b)
  {
    if b != "" {
      assert ([a] + One(b))[1..] == [b];
    }
  }

  lemma Regrouped(a: seq<string>, b: seq<string>, c: seq<string>)
    ensures a + b + c == a + (b + c)
  {
  }

  /** Chooses the layout from the printed parts, as the last step of the printer does. */
  lemma ChooseLayout(post: Post, cap: int, opening: seq<string>)
    requires opening == Printed(Opening(post, cap))
    ensures var full := opening + One(Escape(SummaryText(post, cap))) + One(SourceHtml(post)) + [Escape(post.footer)];
            var short := opening + One(SourceHtml(post)) + One(Escape(post.footer));
            CaptionOf(post, cap) == if |Join(full)| > cap then Join(short) else Join(full)
  {
    FullLines(post, cap);
    ShortLines(post, cap);
    Regrouped(opening, One(SourceHtml(post)), One(Escape(post.footer)));
  }

  /** The opening from its printed strings, and how much of the cap it uses. */
  lemma OpeningUses(post: Post, cap: int, title: string, market: string)
    requires title == "<b>" + Escape(TitleText(post, cap)) + "</b>" && market == MarketHtml(post)
    ensures Printed(Opening(post, cap)) == [title] + One(market)
    ensures |Join(Printed(Opening(post, cap)))| == |title| + if market != "" then |market| + 2 else 0
  {
    OpeningLines(post, cap);
    JoinUpToTwo(title, market);
  }

  lemma TailIs(post: Post, source: string, footer: string)
    requires source == SourceHtml(post) && footer == Escape(post.footer)
    ensures Join(One(source) + One(footer)) == Tail(post)
  {
    TailLines(post);
  }

  lemma SummaryIs(post: Post, cap: int, budget: int, summary: string)
    requires budget == SummaryBudget(post, cap)
    requires summary == if budget > SUMMARY_FLOOR then Escape(FitPlain(post.summary, budget)) else ""
    ensures summary == Escape(SummaryText(post, cap))
  {
  }

  /** The printed title, within what the tail leaves it, and the question line. */
  method PrintOpening(post: Post, cap: int, tail: string) returns (title: string, market: string)
    requires tail == Tail(post)
    ensures title == "<b>" + Escape(TitleText(post, cap)) + "</b>" && market == MarketHtml(post)
  {
    var fitted := Fit(post.title, Min(Max(TITLE_MIN, cap - |tail| - 2 * 2 - 7), TITLE_MAX));
    title := "<b>" + fitted + "</b>";
    market := "";
    if post.question != "" {
      var question := Fit(post.question, QUESTION_MAX);
      market := MARKET_SIGN + question;
    }
  }

  /** Builds the caption from already printed strings, as the publisher does. */
  method BuildCaption(post: Post, cap: int) returns (out: string)
    ensures out == CaptionOf(post, cap)
  {
    var source := if post.url != "" then LinkHtml(post.url, post.source) else "";
    var footer := Escape(post.footer);
    var tail := Join(One(source) + One(footer));
    TailIs(post, source, footer);
    var title, market := PrintOpening(post, cap, tail);
    OpeningUses(post, cap, title, market);

    var used := |title| + if market != "" then |market| + 2 else 0;
    var budget := cap - used - |tail| - 2 * 2;
    var summary := "";
    if budget > SUMMARY_FLOOR {
      summary := Fit(post.summary, budget);
    }
    SummaryIs(post, cap, budget, summary);

    var opening := [title] + One(market);
    ChooseLayout(post, cap, opening);
    out := Join(opening + One(summary) + One(source) + [footer]);
    if |out| > cap {
      out := Join(opening + One(source) + One(footer));
    }
  }

  // ── what a caption says ──────────────────────────────────────────────────

  lemma {:induction false} JoinOneMore(lines: seq<string>, b: string)
    requires |lines| > 0
    ensures Join(lines + [b]) == Join(lines) + "\n\n" + b
    decreases |lines|
  {
    if |lines| == 1 {
      assert (lines + [b])[1..] == [b];
    } else {
      assert (lines + [b])[1..] == lines[1..] + [b];
      JoinOneMore(lines[1..], b);
    }
  }

  lemma JoinMaybeMore(lines: seq<string>, b: string)
    requires |lines| > 0
    ensures Join(lines + One(b)) == Join(lines) + (if b == "" then "" else "\n\n" + b)
  {
    if b == "" {
      assert lines + One(b) == lines;
    } else {
      JoinOneMore(lines, b);
    }
  }

  /** The parts of a post as its reader's client gets them. */
  function TitleLine(post: Post, cap: int): string { "<b>" + Escape(TitleText(post, cap)) + "</b>" }

  function QuestionLine(post: Post): string {
    if post.question == "" then "" else "\n\n\U{1F4CA} " + Escape(FitPlain(post.question, 240))
  }

  function LinkLine(post: Post): string {
    if post.url == "" then ""
    else "\n\n\U{1F517} " + ("<a href=\"" + Escape(post.url) + "\">") + Escape(post.source) + "</a>"
  }

  lemma Regrouping(a: string, b: string, c: string)
    ensures a + (b + c) == (a + b) + c
  {
  }

  lemma QuestionSays(question: string)
    ensures "\n\n" + (MARKET_SIGN + question) == "\n\n\U{1F4CA} " + question
  {
    Regrouping("\n\n", MARKET_SIGN, question);
    assert "\n\n" + MARKET_SIGN == "\n\n\U{1F4CA} ";
  }

  lemma AnchorSays(url: string)
    ensures "<" + Anchor(url) + ">" == "<a href=\"" + Escape(url) + "\">"
  {
    var open := "a href=\"" + Escape(url);
    assert Anchor(url) == open + "\"";
    Regrouping("<", open, "\"");
    Regrouping("<", "a href=\"", Escape(url));
    assert "<" + "a href=\"" == "<a href=\"" && "\"" + ">" == "\">";
    Regrouping("<" + open, "\"", ">");
  }

  lemma LinkHtmlSays(url: string, words: string)
    ensures "\n\n" + LinkHtml(url, words) == "\n\n\U{1F517} " + ("<a href=\"" + Escape(url) + "\">") + Escape(words) + "</a>"
  {
    var anchor := "<" + Anchor(url) + ">";
    AnchorSays(url);
    Regrouping("\n\n", LINK_SIGN, anchor + (Escape(words) + "</a>"));
    Regrouping("\n\n" + LINK_SIGN, anchor, Escape(words) + "</a>");
    Regrouping("\n\n" + LINK_SIGN + anchor, Escape(words), "</a>");
    assert "\n\n" + LINK_SIGN == "\n\n\U{1F517} ";
  }

  lemma OpeningSays(post: Post, cap: int)
    ensures Join(Printed(Opening(post, cap))) == TitleLine(post, cap) + QuestionLine(post)
  {
    OpeningLines(post, cap);
    assert Join([TitleLine(post, cap)]) == TitleLine(post, cap);
    JoinMaybeMore([TitleLine(post, cap)], MarketHtml(post));
    if post.question != "" {
      var question := Escape(FitPlain(post.question, QUESTION_MAX));
      QuestionSays(question);
      Regrouping(TitleLine(post, cap), "\n\n", MARKET_SIGN + question);
    }
  }

  lemma LinkSays(lines: seq<string>, post: Post)
    requires |lines| > 0
    ensures Join(lines + One(SourceHtml(post))) == Join(lines) + LinkLine(post)
  {
    JoinMaybeMore(lines, SourceHtml(post));
    if post.url != "" {
      LinkHtmlSays(post.url, post.source);
    }
  }

  /** The caption, to the character: bold title, question, summary, linked source and footer,
      each after a blank line; when that is too long the summary goes, and the blank line of an
      empty footer. */
  lemma CaptionSays(post: Post, cap: int)
    ensures var opening := TitleLine(post, cap) + QuestionLine(post);
            var summary := if SummaryText(post, cap) == "" then "" else "\n\n" + Escape(SummaryText(post, cap));
            var full := opening + summary + LinkLine(post) + "\n\n" + Escape(post.footer);
            CaptionOf(post, cap) ==
              if |full| <= cap then full
              else opening + LinkLine(post) + (if post.footer == "" then "" else "\n\n" + Escape(post.footer))
  {
    var opening, summary := Printed(Opening(post, cap)), Escape(SummaryText(post, cap));
    EscapeIsNoShorter(post.footer);
    EscapeIsNoShorter(SummaryText(post, cap));
    OpeningSays(post, cap);
    ChooseLayout(post, cap, opening);
    JoinMaybeMore(opening, summary);
    LinkSays(opening + One(summary), post);
    JoinOneMore(opening + One(summary) + One(SourceHtml(post)), Escape(post.footer));
    LinkSays(opening, post);
    JoinMaybeMore(opening + One(SourceHtml(post)), Escape(post.footer));
  }

  lemma TailSays(post: Post)
    requires post.footer != ""
    ensures |Tail(post)| == |LinkLine(post)| + |Escape(post.footer)|
  {
    EscapeIsNoShorter(post.footer);
    TailLines(post);
    if post.url != "" {
      LinkHtmlSays(post.url, post.source);
      JoinOneMore([SourceHtml(post)], Escape(post.footer));
    }
  }

  /** Under a footer the title is whole exactly when its escaped form is within 220 characters
      and within what the link and the footer leave of the cap, or is within 40. */
  lemma TitleGetsTheRoom(post: Post, cap: int)
    requires post.footer != ""
    ensures TitleText(post, cap) == post.title <==>
            var length, tail := |Escape(post.title)|, |LinkLine(post)| + |Escape(post.footer)|;
            length <= 40 || (length <= 220 && length + tail + 11 <= cap)
  {
    TailSays(post);
    FitKeepsOrCuts(post.title, TitleBudget(|Tail(post)|, cap));
  }

  lemma SummaryRoom(post: Post, cap: int)
    requires post.footer != ""
    ensures SummaryBudget(post, cap) ==
            cap - (|TitleLine(post, cap) + QuestionLine(post)| + |LinkLine(post)| + 2 + |Escape(post.footer)|) - 2
  {
    TailSays(post);
    OpeningSays(post, cap);
  }

  /** The summary is cut to the room that all the other parts leave, and left out when that is
      24 characters or less. */
  lemma SummaryGetsTheRoom(post: Post, cap: int)
    requires post.footer != ""
    ensures var others := |TitleLine(post, cap) + QuestionLine(post)| + |LinkLine(post)| + 2 + |Escape(post.footer)|;
            SummaryText(post, cap) == if cap - others - 2 > 24 then FitPlain(post.summary, cap - others - 2) else ""
  {
    SummaryRoom(post, cap);
  }

  // ── the length cap ───────────────────────────────────────────────────────

  /** The length of the lines, each with the blank line that follows it. */
  function Width(lines: seq<string>): nat { if |lines| == 0 then 0 else |lines[0]| + 2 + Width(lines[1..]) }

  lemma {:induction false} WidthAppend(a: seq<string>, b: seq<string>)
    ensures Width(a + b) == Width(a) + Width(b)
    decreases |a|
  {
    if |a| == 0 {
      assert a + b == b;
    } else {
      assert (a + b)[1..] == a[1..] + b;
      WidthAppend(a[1..], b);
    }
  }

  lemma {:induction false} JoinLength(lines: seq<string>)
    ensures |Join(lines)| == if |lines| == 0 then 0 else Width(lines) - 2
    decreases |lines|
  {
    if |lines| > 1 {
      JoinLength(lines[1..]);
    }
  }

  /** What the source link and the footer take, with the blank lines before them. */
  function TailWidth(post: Post): nat { Width(One(SourceHtml(post)) + One(Escape(post.footer))) }

  lemma ShortLength(post: Post, cap: int)
    ensures |Join(Printed(Short(post, cap)))| ==
            |Escape(TitleText(post, cap))| + 7 + Width(One(MarketHtml(post))) + TailWidth(post)
    ensures |Tail(post)| == Max(0, TailWidth(post) - 2)
  {
    TailLines(post);
    OpeningLines(post, cap);
    ShortLines(post, cap);
    var title := "<b>" + Escape(TitleText(post, cap)) + "</b>";
    WidthAppend([title], One(MarketHtml(post)));
    WidthAppend([title] + One(MarketHtml(post)), One(SourceHtml(post)) + One(Escape(post.footer)));
    JoinLength([title] + One(MarketHtml(post)) + (One(SourceHtml(post)) + One(Escape(post.footer))));
    JoinLength(One(SourceHtml(post)) + One(Escape(post.footer)));
    assert [title][1..] == [];
  }

  lemma ShorterFits(post: Post, cap: int)
    ensures |Join(Printed(Short(post, cap)))| <= |Join(Printed(Full(post, cap)))|
  {
    var opening, summary, source, footer :=
      Printed(Opening(post, cap)), One(Escape(SummaryText(post, cap))), One(SourceHtml(post)), Escape(post.footer);
    FullLines(post, cap);
    ShortLines(post, cap);
    WidthAppend(opening + summary + source, [footer]);
    WidthAppend(opening + summary, source);
    WidthAppend(opening, summary);
    WidthAppend(opening, source + One(footer));
    WidthAppend(source, One(footer));
    JoinLength(opening + summary + source + [footer]);
    JoinLength(opening + (source + One(footer)));
  }

  /** A caption is within the cap exactly when its title, question, link and footer are. */
  lemma CaptionFits(post: Post, cap: int)
    ensures |CaptionOf(post, cap)| <= cap <==>
            |Escape(TitleText(post, cap))| + 7 + Width(One(MarketHtml(post))) + TailWidth(post) <= cap
  {
    ShortLength(post, cap);
    ShorterFits(post, cap);
  }

  /** The widest a title and a question line can be, beside the tail, before the title's
      budget is what gives way. */
  function Headroom(post: Post): nat { if post.question == "" then 47 else 471 }

  /** Room beside the tail for the longest title and question line keeps every caption in
      the cap; without a question the shortest title budget is enough. */
  lemma EnoughRoomFits(post: Post, cap: int)
    requires TailWidth(post) + Headroom(post) <= cap
    ensures |CaptionOf(post, cap)| <= cap
  {
    ShortLength(post, cap);
    CaptionFits(post, cap);
    FitWithinBudget(post.title, TitleBudget(|Tail(post)|, cap));
    FitWithinBudget(post.question, QUESTION_MAX);
    WidthOfOne(MarketHtml(post));
  }

  lemma WidthOfOne(line: string)
    ensures Width(One(line)) == if line == "" then 0 else |line| + 2
  {
    assert [line][1..] == [];
  }

  function Repeat(n: nat): (s: string)
    ensures |s| == n
    ensures forall c <- s :: c == 'x'
  {
    if n == 0 then "" else "x" + Repeat(n - 1)
  }

  lemma WholeWhenPlain(n: nat)
    ensures FitPlain(Repeat(n), n) == Repeat(n) && Escape(Repeat(n)) == Repeat(n)
  {
    EscapeIsIdentity(Repeat(n));
  }

  /** The longest title its budget allows, and the longest question. */
  function Widest(post: Post, cap: int): Post {
    post.(title := Repeat(TitleBudget(|Tail(post)|, cap)),
          question := if post.question == "" then "" else Repeat(QUESTION_MAX))
  }

  lemma TooLittleRoomOverflows(post: Post, cap: int)
    requires TailWidth(post) + Headroom(post) > cap
    ensures |CaptionOf(Widest(post, cap), cap)| > cap
  {
    var wide := Widest(post, cap);
    var budget := TitleBudget(|Tail(post)|, cap);
    assert Tail(wide) == Tail(post) && TailWidth(wide) == TailWidth(post);
    ShortLength(wide, cap);
    CaptionFits(wide, cap);
    WholeWhenPlain(budget);
    WholeWhenPlain(QUESTION_MAX);
    WidthOfOne(MarketHtml(wide));
  }

  /** Which posts share the link, its words, the footer, and whether a question is shown. */
  predicate SameFrame(a: Post, b: Post) {
    a.url == b.url && a.source == b.source && a.footer == b.footer && (a.question == "" <==> b.question == "")
  }

  lemma FrameDecidesRoom(a: Post, b: Post)
    requires SameFrame(a, b)
    ensures TailWidth(a) == TailWidth(b) && Headroom(a) == Headroom(b)
  {
  }

  /** "Guaranteed within the cap" holds for exactly the frames that leave this much room: a
      long enough link breaks it, since the tail is never trimmed. */
  lemma GuaranteeHoldsExactly(frame: Post, cap: int)
    ensures (forall post :: SameFrame(frame, post) ==> |CaptionOf(post, cap)| <= cap) <==>
            TailWidth(frame) + Headroom(frame) <= cap
  {
    if TailWidth(frame) + Headroom(frame) <= cap {
      forall post | SameFrame(frame, post) ensures |CaptionOf(post, cap)| <= cap {
        FrameDecidesRoom(frame, post);
        EnoughRoomFits(post, cap);
      }
    } else {
      TooLittleRoomOverflows(frame, cap);
      assert SameFrame(frame, Widest(frame, cap));
    }
  }

  lemma FullLength(post: Post, cap: int)
    requires post.footer != ""
    ensures |Join(Printed(Full(post, cap)))| ==
            |Join(Printed(Short(post, cap)))| + Width(One(Escape(SummaryText(post, cap))))
    ensures |Join(Printed(Short(post, cap)))| == |Join(Printed(Opening(post, cap)))| + 2 + |Tail(post)|
  {
    var opening, summary, source, footer :=
      Printed(Opening(post, cap)), One(Escape(SummaryText(post, cap))), One(SourceHtml(post)), Escape(post.footer);
    EscapeIsNoShorter(post.footer);
    FullLines(post, cap);
    ShortLines(post, cap);
    TailLines(post);
    WidthAppend(opening + summary + source, [footer]);
    WidthAppend(opening + summary, source);
    WidthAppend(opening, summary);
    WidthAppend(opening, source + [footer]);
    WidthAppend(source, [footer]);
    JoinLength(opening);
    JoinLength(source + [footer]);
    JoinLength(opening + summary + source + [footer]);
    JoinLength(opening + (source + [footer]));
  }

  /** The summary is cut to the room that is left, so under a footer it never makes a post too
      long: a caption within the cap is always the full one. */
  lemma SummaryNeverOverflows(post: Post, cap: int)
    requires post.footer != "" && |CaptionOf(post, cap)| <= cap
    ensures Layout(post, cap) == Full(post, cap)
  {
    FullLength(post, cap);
    ShorterFits(post, cap);
    WidthOfOne(Escape(SummaryText(post, cap)));
    if SummaryText(post, cap) != "" {
      FitWithinBudget(post.summary, SummaryBudget(post, cap));
    }
  }

  // ── reading a caption back ───────────────────────────────────────────────

  /** The lines a reader sees: a part that is absent has no line. */
  function VisibleLines(title: string, question: string, summary: string, source: string, footer: string): seq<string> {
    [title] + One(question) + One(summary) + One(source) + [footer]
  }

  function PlainLines(blocks: seq<seq<Piece>>): (lines: seq<string>)
    ensures |lines| == |blocks|
  {
    if |blocks| == 0 then [] else [Plain(blocks[0])] + PlainLines(blocks[1..])
  }

  lemma {:induction false} PlainAppend(a: seq<Piece>, b: seq<Piece>)
    ensures Plain(a + b) == Plain(a) + Plain(b)
    decreases |a|
  {
    if |a| == 0 {
      assert a + b == b;
    } else {
      assert (a + b)[1..] == a[1..] + b;
      PlainAppend(a[1..], b);
    }
  }

  lemma PlainOne(p: Piece)
    ensures Plain([p]) == if p.Tag? then "" else p.plain
  {
    assert [p][1..] == [];
  }

  lemma {:induction false} PiecesPrintAsLines(blocks: seq<seq<Piece>>)
    ensures Print(Pieces(blocks)) == Join(Printed(blocks))
    ensures Plain(Pieces(blocks)) == Join(PlainLines(blocks))
    decreases |blocks|
  {
    if |blocks| > 1 {
      var rest := Pieces(blocks[1..]);
      PiecesPrintAsLines(blocks[1..]);
      PrintAppend(blocks[0] + [Text(BREAK)], rest);
      PrintAppend(blocks[0], [Text(BREAK)]);
      PrintOne(Text(BREAK));
      EscapeIsIdentity(BREAK);
      PlainAppend(blocks[0] + [Text(BREAK)], rest);
      PlainAppend(blocks[0], [Text(BREAK)]);
      PlainOne(Text(BREAK));
    }
  }

  predicate AllWellTagged(blocks: seq<seq<Piece>>) { forall b <- blocks :: WellTagged(b) }

  lemma {:induction false} PiecesWellTagged(blocks: seq<seq<Piece>>)
    requires AllWellTagged(blocks)
    ensures WellTagged(Pieces(blocks))
    decreases |blocks|
  {
    if |blocks| > 0 {
      assert blocks[0] in blocks && forall b <- blocks[1..] :: b in blocks;
      PiecesWellTagged(blocks[1..]);
    }
  }

  lemma AppendWellTagged(a: seq<seq<Piece>>, b: seq<seq<Piece>>)
    requires AllWellTagged(a) && AllWellTagged(b)
    ensures AllWellTagged(a + b)
  {
  }

  lemma TextBlocksWellTagged(text: string)
    ensures AllWellTagged([[Text(text)]])
  {
  }

  lemma LinkIsWellTagged(post: Post)
    ensures AllWellTagged(SourceBlocks(post))
  {
    EscapeHasNoAngles(post.url);
    assert IsTagBody(Anchor(post.url)) && IsTagBody("/a");
  }

  lemma OpeningIsWellTagged(post: Post, cap: int)
    ensures AllWellTagged(Opening(post, cap))
  {
    assert IsTagBody("b") && IsTagBody("/b");
    assert WellTagged(TitleBlock(TitleText(post, cap)));
    AppendWellTagged([TitleBlock(TitleText(post, cap))], MarketBlocks(post));
  }

  lemma LayoutIsWellTagged(post: Post, cap: int)
    ensures AllWellTagged(Layout(post, cap))
  {
    var opening, summary, source := Opening(post, cap), SummaryBlocks(post, cap), SourceBlocks(post);
    OpeningIsWellTagged(post, cap);
    LinkIsWellTagged(post);
    TextBlocksWellTagged(post.footer);
    TextBlocksWellTagged(SummaryText(post, cap));
    AppendWellTagged(source, FooterBlocks(post));
    AppendWellTagged(opening, source + FooterBlocks(post));
    AppendWellTagged(opening, summary);
    AppendWellTagged(opening + summary, source);
    AppendWellTagged(opening + summary + source, [[Text(post.footer)]]);
  }

  lemma {:induction false} PlainLinesAppend(a: seq<seq<Piece>>, b: seq<seq<Piece>>)
    ensures PlainLines(a + b) == PlainLines(a) + PlainLines(b)
    decreases |a|
  {
    if |a| == 0 {
      assert a + b == b;
    } else {
      assert (a + b)[1..] == a[1..] + b;
      PlainLinesAppend(a[1..], b);
    }
  }

  lemma PlainLinesOne(block: seq<Piece>)
    ensures PlainLines([block]) == [Plain(block)]
  {
    assert [block][1..] == [];
  }

  lemma PlainTagged(open: string, words: string, close: string)
    ensures Plain([Tag(open), Text(words), Tag(close)]) == words
  {
    var pieces := [Tag(open), Text(words), Tag(close)];
    assert pieces[1..] == [Text(words), Tag(close)] && pieces[1..][1..] == [Tag(close)];
    PlainOne(Tag(close));
    assert Plain(pieces[1..]) == words + "" == words;
  }

  lemma PlainSigned(sign: string, open: string, words: string, close: string)
    ensures Plain([Text(sign), Tag(open), Text(words), Tag(close)]) == sign + words
  {
    assert [Text(sign), Tag(open), Text(words), Tag(close)][1..] == [Tag(open), Text(words), Tag(close)];
    PlainTagged(open, words, close);
  }

  lemma PlainLink(post: Post)
    ensures PlainLines(SourceBlocks(post)) == One(VisibleSource(post))
  {
    if post.url != "" {
      PlainSigned(LINK_SIGN, Anchor(post.url), post.source, "/a");
      PlainLinesOne(LinkBlock(post.url, post.source));
    }
  }

  function VisibleQuestion(post: Post): string {
    if post.question == "" then "" else MARKET_SIGN + FitPlain(post.question, QUESTION_MAX)
  }

  function VisibleSource(post: Post): string { if post.url == "" then "" else LINK_SIGN + post.source }

  lemma PlainText(text: string)
    ensures PlainLines([[Text(text)]]) == [text]
  {
    PlainOne(Text(text));
    PlainLinesOne([Text(text)]);
  }

  lemma PlainOpening(post: Post, cap: int)
    ensures PlainLines(Opening(post, cap)) == [TitleText(post, cap)] + One(VisibleQuestion(post))
  {
    var title := TitleBlock(TitleText(post, cap));
    PlainLinesAppend([title], MarketBlocks(post));
    PlainLinesOne(title);
    PlainTagged("b", TitleText(post, cap), "/b");
    if post.question != "" {
      PlainText(VisibleQuestion(post));
    }
  }

  /** The plain-text form sent when the markup is refused is exactly the plain title,
      question, summary, link words and footer, with no trace of tags or escapes. */
  lemma CaptionReadsBack(post: Post, cap: int)
    requires post.footer != "" && |CaptionOf(post, cap)| <= cap
    ensures Unescape(StripTags(CaptionOf(post, cap))) ==
            Join(VisibleLines(TitleText(post, cap), VisibleQuestion(post), SummaryText(post, cap),
                              VisibleSource(post), post.footer))
  {
    var opening, summary, source := Opening(post, cap), SummaryBlocks(post, cap), SourceBlocks(post);
    AnyCaptionReadsBack(post, cap);
    SummaryNeverOverflows(post, cap);
    PlainLinesAppend(opening + summary + source, [[Text(post.footer)]]);
    PlainLinesAppend(opening + summary, source);
    PlainLinesAppend(opening, summary);
    PlainOpening(post, cap);
    PlainText(SummaryText(post, cap));
    PlainLink(post);
    PlainText(post.footer);
  }

  /** Whatever the layout, over-long or not, what is left without markup is its plain text. */
  lemma AnyCaptionReadsBack(post: Post, cap: int)
    ensures Unescape(StripTags(CaptionOf(post, cap))) == Join(PlainLines(Layout(post, cap)))
  {
    LayoutIsWellTagged(post, cap);
    PiecesWellTagged(Layout(post, cap));
    PiecesPrintAsLines(Layout(post, cap));
    StrippingInvertsPrinting(Pieces(Layout(post, cap)));
  }
}
