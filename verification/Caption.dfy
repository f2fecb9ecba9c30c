/** The caption printer: a budgeted, escape-aware cut at a word boundary, and the layout of a
    post within the platform's length cap. */
module Caption {
  import opened Wrappers
  import opened Markup
  import opened Text

  const ELLIPSIS := "\U{2026}"
  const CHOP := 16
  const TITLE_MAX := 220
  const TITLE_MIN := 40
  const QUESTION_MAX := 240
  const SUMMARY_FLOOR := 24
  const BREAK := "\n\n"
  const MARKET_SIGN := "\U{1F4CA} "
  const LINK_SIGN := "\U{1F517} "

  // ── cutting plain text to a budget ───────────────────────────────────────

  /** The blanks and punctuation removed before an ellipsis. */
  predicate IsCutChar(c: char) {
    c == ' ' || c == ',' || c == ';' || c == ':' || c == '\U{2013}' || c == '\U{2014}' || c == '-'
  }

  /** The index of the last blank, or -1. */
  function LastBlank(s: string): (i: int)
    ensures -1 <= i < |s|
    ensures i >= 0 ==> s[i] == ' '
    ensures forall j | i < j < |s| :: s[j] != ' '
    decreases |s|
  {
    if s == "" then -1
    else if s[|s| - 1] == ' ' then |s| - 1
    else LastBlank(s[..|s| - 1])
  }

  /** A cut leaves room for the ellipsis. */
  predicate Fits(s: string, budget: int) { |Escape(s)| + 1 <= budget }

  function DropTail(s: string): (r: string)
    ensures r <= s
  {
    s[..Max(0, |s| - CHOP)]
  }

  function Chop(s: string, budget: int): (r: string)
    ensures r <= s
    ensures r == "" || Fits(r, budget)
    decreases |s|
  {
    if s == "" || Fits(s, budget) then s else Chop(DropTail(s), budget)
  }

  /** What is left of a chopped text once a trailing partial word is gone. */
  function WholeWords(s: string): (r: string)
    ensures r <= s
  {
    var t := StripEnd(s, IsSpace);
    var blank := LastBlank(t);
    if blank > 0 then StripEnd(t[..blank], IsCutChar) else t
  }

  function Kept(plain: string, budget: int): (r: string)
    ensures r <= plain
  {
    WholeWords(Chop(plain, budget))
  }

  function FitPlain(plain: string, budget: int): string {
    if |Escape(plain)| <= budget then plain
    else if Kept(plain, budget) == "" then ""
    else Kept(plain, budget) + ELLIPSIS
  }

  lemma EscapeEllipsis(s: string)
    ensures Escape(s + ELLIPSIS) == Escape(s) + ELLIPSIS
  {
    EscapeAppend(s, ELLIPSIS);
    EscapeIsIdentity(ELLIPSIS);
  }

  /** The printer's loop produces the escape of that plain text. */
  method Fit(plain: string, budget: int) returns (out: string)
    ensures out == Escape(FitPlain(plain, budget))
  {
    if |Escape(plain)| <= budget {
      return Escape(plain);
    }
    var s := plain;
    while s != "" && |Escape(s)| + 1 > budget
      invariant Chop(plain, budget) == Chop(s, budget)
      decreases |s|
    {
      s := s[..Max(0, |s| - CHOP)];
    }
    s := StripEnd(s, IsSpace);
    var blank := LastBlank(s);
    if blank > 0 {
      s := StripEnd(s[..blank], IsCutChar);
    }
    assert s == Kept(plain, budget);
    EscapeEllipsis(s);
    out := if s != "" then Escape(s) + ELLIPSIS else "";
  }

  // ── what a cut text is ───────────────────────────────────────────────────

  lemma PrefixEscapesShorter(s: string, t: string)
    requires s <= t
    ensures |Escape(s)| <= |Escape(t)|
  {
    assert t == s + t[|s|..];
    EscapeAppend(s, t[|s|..]);
  }

  /** The printed text never exceeds its budget; a negative budget prints nothing. */
  lemma FitWithinBudget(plain: string, budget: int)
    ensures |Escape(FitPlain(plain, budget))| <= Max(0, budget)
  {
    var kept := Kept(plain, budget);
    if |Escape(plain)| > budget && kept != "" {
      PrefixEscapesShorter(kept, Chop(plain, budget));
      EscapeEllipsis(kept);
    }
  }

  lemma {:induction false} ChopStepsBySixteen(s: string, budget: int)
    ensures var n := |Chop(s, budget)|; n == 0 || ((|s| - n) % 16 == 0 && |Escape(Chop(s, budget))| + 1 <= budget)
    decreases |s|
  {
    if s != "" && !Fits(s, budget) {
      ChopStepsBySixteen(DropTail(s), budget);
    }
  }

  /** No longer cut at a multiple of sixteen characters would have fitted. */
  lemma {:induction false} ChopIsLongest(s: string, budget: int, m: nat)
    requires |Chop(s, budget)| < m <= |s| && (|s| - m) % 16 == 0
    ensures |Escape(s[..m])| + 1 > budget
    decreases |s|
  {
    if m == |s| {
      assert s[..m] == s;
    } else {
      var t := DropTail(s);
      assert m <= |s| - CHOP;
      assert t[..m] == s[..m];
      ChopIsLongest(t, budget, m);
    }
  }

  /** A text is left whole exactly when its escaped form fits; otherwise it loses at least
      sixteen characters and is either nothing or a proper prefix with an ellipsis. */
  lemma FitKeepsOrCuts(plain: string, budget: nat)
    ensures FitPlain(plain, budget) == plain <==> |Escape(plain)| <= budget
    ensures |Escape(plain)| > budget ==>
              var kept := Kept(plain, budget);
              FitPlain(plain, budget) == (if kept == "" then "" else kept + "\U{2026}") &&
              (kept == "" || (kept <= plain && |kept| + 16 <= |plain|))
  {
    if |Escape(plain)| > budget {
      assert !Fits(plain, budget) && plain != "";
      assert Chop(plain, budget) <= DropTail(plain);
    }
  }

  predicate AtABoundary(kept: string, s: string)
    requires kept <= s && kept != ""
  {
    || (|kept| < |s| && IsCutChar(s[|kept|]) && !IsCutChar(kept[|kept| - 1]))
    || (forall i | 0 < i < |kept| :: kept[i] != ' ')
  }

  lemma WholeWordsEndAtABoundary(s: string)
    requires WholeWords(s) != ""
    ensures AtABoundary(WholeWords(s), s)
  {
    var t := StripEnd(s, IsSpace);
    var blank := LastBlank(t);
    if blank > 0 {
      var kept := StripEnd(t[..blank], IsCutChar);
      assert t[|kept|] == s[|kept|];
    }
  }

  /** The cut falls before a blank or a cut mark, unless what is kept has no blank past its
      first character to fall back to. */
  lemma CutsAtAWordBoundary(plain: string, budget: nat)
    requires |Escape(plain)| > budget && Kept(plain, budget) != ""
    ensures AtABoundary(Kept(plain, budget), plain)
  {
    WholeWordsEndAtABoundary(Chop(plain, budget));
  }

  /** `e` characters are left of a text without the blanks at its end. */
  predicate EndsAt(s: string, e: nat) {
    e <= |s| && (forall i | e <= i < |s| :: IsSpace(s[i])) && (e > 0 ==> !IsSpace(s[e - 1]))
  }

  /** Position `b` is the last blank of the first `e` characters, and not the very first. */
  predicate LastBlankAt(s: string, e: nat, b: nat)
    requires e <= |s|
  {
    0 < b < e && s[b] == ' ' && forall i | b < i < e :: s[i] != ' '
  }

  /** `k` characters are left of the first `b` without the cut marks at their end. */
  predicate MarksCutAt(s: string, b: nat, k: nat)
    requires b <= |s|
  {
    && k <= b && (forall i | k <= i < b :: s[i] in " ,;:\U{2013}\U{2014}-")
    && (k > 0 ==> s[k - 1] !in " ,;:\U{2013}\U{2014}-")
  }

  lemma MarksAreCut(s: string, b: nat)
    requires b <= |s|
    ensures MarksCutAt(s, b, |StripEnd(s[..b], IsCutChar)|)
  {
    var front := s[..b];
    var kept := StripEnd(front, IsCutChar);
    forall i | |kept| <= i < b
      ensures s[i] in " ,;:\U{2013}\U{2014}-"
    {
      assert IsCutChar(front[i]);
    }
  }

  /** The first `e` characters are cut to `k` at their last blank, and keep no cut mark at the
      end; without a blank past the first character they are kept as they are. */
  ghost predicate CutToWords(s: string, e: nat, k: nat)
    requires e <= |s|
  {
    if exists b: nat :: LastBlankAt(s, e, b) then forall b: nat | LastBlankAt(s, e, b) :: MarksCutAt(s, b, k)
    else k == e
  }

  /** What is kept of a chopped text, to the character: without the blanks at its end, it is cut
      to whole words. */
  lemma WholeWordsMean(s: string)
    ensures exists e: nat :: EndsAt(s, e) && CutToWords(s, e, |WholeWords(s)|)
  {
    var t := StripEnd(s, IsSpace);
    var e, blank := |t|, LastBlank(t);
    assert t == s[..e];
    if blank > 0 {
      assert LastBlankAt(s, e, blank) && t[..blank] == s[..blank];
      MarksAreCut(s, blank);
    }
    assert EndsAt(s, e) && CutToWords(s, e, |WholeWords(s)|);
  }
}
