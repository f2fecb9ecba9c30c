/** HTML escaping, tag stripping and unescaping as the publisher uses them, and the law
    between them: stripping inverts printing. */
module Markup {

  // ── escaping ─────────────────────────────────────────────────────────────

  function EscapeChar(c: char): string {
    if c == '&' then "&amp;"
    else if c == '<' then "&lt;"
    else if c == '>' then "&gt;"
    else if c == '"' then "&quot;"
    else if c == '\'' then "&#x27;"
    else [c]
  }

  function Escape(s: string): string { if |s| == 0 then "" else EscapeChar(s[0]) + Escape(s[1..]) }

  lemma {:induction false} EscapeAppend(a: string, b: string)
    ensures Escape(a + b) == Escape(a) + Escape(b)
    decreases |a|
  {
    if |a| == 0 {
      assert a + b == b;
    } else {
      assert (a + b)[1..] == a[1..] + b;
      EscapeAppend(a[1..], b);
    }
  }

  predicate NeedsNoEscape(s: string) {
    forall c <- s :: c != '&' && c != '<' && c != '>' && c != '"' && c != '\''
  }

  lemma {:induction false} EscapeIsIdentity(s: string)
    requires NeedsNoEscape(s)
    ensures Escape(s) == s
    decreases |s|
  {
    if |s| > 0 {
      assert s[0] in s && EscapeChar(s[0]) == [s[0]];
      assert forall c <- s[1..] :: c in s;
      EscapeIsIdentity(s[1..]);
      assert s == [s[0]] + s[1..];
    }
  }

  lemma {:induction false} EscapeHasNoAngles(s: string)
    ensures '<' !in Escape(s) && '>' !in Escape(s)
    decreases |s|
  {
    if |s| > 0 {
      EscapeHasNoAngles(s[1..]);
    }
  }

  lemma {:induction false} EscapeIsNoShorter(s: string)
    ensures |Escape(s)| >= |s|
    decreases |s|
  {
    if |s| > 0 {
      EscapeIsNoShorter(s[1..]);
    }
  }

  /** Five characters are spelled as entities, wherever they stand, and no other. */
  lemma EscapeSpells(a: string, c: char, b: string)
    ensures Escape(a + [c] + b) == Escape(a) + EscapeChar(c) + Escape(b)
    ensures EscapeChar('&') == "&amp;" && EscapeChar('<') == "&lt;" && EscapeChar('>') == "&gt;"
    ensures EscapeChar('"') == "&quot;" && EscapeChar('\'') == "&#x27;"
    ensures c !in "&<>\"'" ==> EscapeChar(c) == [c]
  {
    EscapeAppend(a + [c], b);
    EscapeAppend(a, [c]);
    assert [c][1..] == "" && Escape([c]) == EscapeChar(c);
  }

  // ── stripping tags, then unescaping ──────────────────────────────────────

  /** The number of characters before the first '>', or the length if there is none. */
  function ToAngle(s: string): (n: nat)
    ensures n <= |s|
  {
    if |s| == 0 || s[0] == '>' then 0 else 1 + ToAngle(s[1..])
  }

  /** The length of the tag at the front: '<', at least one other character, '>'. */
  function TagLength(s: string): (n: nat)
    ensures n <= |s|
  {
    if |s| == 0 || s[0] != '<' then 0
    else
      var n := ToAngle(s[1..]);
      if n == 0 || n == |s| - 1 then 0 else n + 2
  }

  function StripTags(s: string): string
    decreases |s|
  {
    if |s| == 0 then ""
    else
      var n := TagLength(s);
      if n > 0 then StripTags(s[n..]) else [s[0]] + StripTags(s[1..])
  }

  predicate StartsWith(s: string, p: string) { |p| <= |s| && forall i | 0 <= i < |p| :: s[i] == p[i] }

  function Unescape(s: string): string
    decreases |s|
  {
    if |s| == 0 then ""
    else if StartsWith(s, "&amp;") then "&" + Unescape(s[5..])
    else if StartsWith(s, "&lt;") then "<" + Unescape(s[4..])
    else if StartsWith(s, "&gt;") then ">" + Unescape(s[4..])
    else if StartsWith(s, "&quot;") then "\"" + Unescape(s[6..])
    else if StartsWith(s, "&#x27;") then "'" + Unescape(s[6..])
    else [s[0]] + Unescape(s[1..])
  }

  lemma DiffersFrom(s: string, p: string, i: nat)
    requires i < |p| && i < |s| && s[i] != p[i]
    ensures !StartsWith(s, p)
  {
  }

  lemma StartsWithItself(p: string, t: string)
    ensures StartsWith(p + t, p) && (p + t)[|p|..] == t
  {
  }

  lemma UnescapeSpecial(c: char, t: string)
    requires c == '&' || c == '<' || c == '>' || c == '"' || c == '\''
    ensures Unescape(EscapeChar(c) + t) == [c] + Unescape(t)
  {
    var s := EscapeChar(c) + t;
    StartsWithItself(EscapeChar(c), t);
    assert s[1] == EscapeChar(c)[1];
    if c != '&' {
      DiffersFrom(s, "&amp;", 1);
    }
    if c != '&' && c != '<' {
      DiffersFrom(s, "&lt;", 1);
    }
    if c == '"' || c == '\'' {
      DiffersFrom(s, "&gt;", 1);
    }
    if c == '\'' {
      DiffersFrom(s, "&quot;", 1);
    }
  }

  lemma UnescapeOther(c: char, t: string)
    requires c != '&'
    ensures Unescape([c] + t) == [c] + Unescape(t)
  {
    var s := [c] + t;
    assert s[0] == c && s[1..] == t;
    DiffersFrom(s, "&amp;", 0);
    DiffersFrom(s, "&lt;", 0);
    DiffersFrom(s, "&gt;", 0);
    DiffersFrom(s, "&quot;", 0);
    DiffersFrom(s, "&#x27;", 0);
  }

  lemma UnescapeChar(c: char, t: string)
    ensures Unescape(EscapeChar(c) + t) == [c] + Unescape(t)
  {
    if c == '&' || c == '<' || c == '>' || c == '"' || c == '\'' {
      UnescapeSpecial(c, t);
    } else {
      UnescapeOther(c, t);
    }
  }

  /** Each of the five entities reads back as its character, and any character that begins no
      entity as itself. */
  lemma UnescapeReads(c: char, t: string)
    ensures Unescape("&amp;" + t) == "&" + Unescape(t)
    ensures Unescape("&lt;" + t) == "<" + Unescape(t) && Unescape("&gt;" + t) == ">" + Unescape(t)
    ensures Unescape("&quot;" + t) == "\"" + Unescape(t) && Unescape("&#x27;" + t) == "'" + Unescape(t)
    ensures c != '&' ==> Unescape([c] + t) == [c] + Unescape(t)
  {
    UnescapeSpecial('&', t);
    UnescapeSpecial('<', t);
    UnescapeSpecial('>', t);
    UnescapeSpecial('"', t);
    UnescapeSpecial('\'', t);
    if c != '&' {
      UnescapeOther(c, t);
    }
  }

  lemma Regroup(a: string, head: string, rest: string, t: string)
    requires |a| > 0
    ensures (head + rest) + t == head + (rest + t)
    ensures [a[0]] + (a[1..] + t) == a + t
  {
  }

  lemma {:induction false} UnescapeInvertsEscape(a: string, t: string)
    ensures Unescape(Escape(a) + t) == a + Unescape(t)
    decreases |a|
  {
    if |a| == 0 {
      assert Escape(a) + t == t;
    } else {
      UnescapeInvertsEscape(a[1..], t);
      UnescapeChar(a[0], Escape(a[1..]) + t);
      Regroup(a, EscapeChar(a[0]), Escape(a[1..]), t);
      Regroup(a, EscapeChar(a[0]), Escape(a[1..]), Unescape(t));
    }
  }

  // ── any markup ───────────────────────────────────────────────────────────

  /** A piece of a message: a tag, or text that is escaped when printed. */
  datatype Piece = Tag(body: string) | Text(plain: string)

  predicate IsTagBody(s: string) { |s| > 0 && '>' !in s }

  predicate WellTagged(pieces: seq<Piece>) { forall p <- pieces :: p.Tag? ==> IsTagBody(p.body) }

  function PrintPiece(p: Piece): string { if p.Tag? then "<" + p.body + ">" else Escape(p.plain) }

  function Print(pieces: seq<Piece>): string {
    if |pieces| == 0 then "" else PrintPiece(pieces[0]) + Print(pieces[1..])
  }

  /** What a reader of the plain text should see. */
  function Plain(pieces: seq<Piece>): string {
    if |pieces| == 0 then "" else (if pieces[0].Tag? then "" else pieces[0].plain) + Plain(pieces[1..])
  }

  /** The printed text without its tags. */
  function Escaped(pieces: seq<Piece>): string {
    if |pieces| == 0 then "" else (if pieces[0].Tag? then "" else Escape(pieces[0].plain)) + Escaped(pieces[1..])
  }

  lemma {:induction false} PrintAppend(a: seq<Piece>, b: seq<Piece>)
    ensures Print(a + b) == Print(a) + Print(b)
    decreases |a|
  {
    if |a| == 0 {
      assert a + b == b;
    } else {
      assert (a + b)[1..] == a[1..] + b;
      PrintAppend(a[1..], b);
    }
  }

  lemma {:induction false} ToAngleOfBody(body: string, t: string)
    requires '>' !in body
    ensures ToAngle(body + ">" + t) == |body|
    decreases |body|
  {
    if |body| > 0 {
      assert (body + ">" + t)[1..] == body[1..] + ">" + t;
      ToAngleOfBody(body[1..], t);
    }
  }

  lemma StripTag(body: string, t: string)
    requires IsTagBody(body)
    ensures StripTags("<" + body + ">" + t) == StripTags(t)
  {
    var s := "<" + body + ">" + t;
    assert s[1..] == body + ">" + t;
    ToAngleOfBody(body, t);
    assert s[|body| + 2..] == t;
  }

  lemma {:induction false} StripText(a: string, t: string)
    requires '<' !in a
    ensures StripTags(a + t) == a + StripTags(t)
    decreases |a|
  {
    if |a| == 0 {
      assert a + t == t;
    } else {
      assert (a + t)[1..] == a[1..] + t;
      StripText(a[1..], t);
      assert a == [a[0]] + a[1..];
    }
  }

  lemma StripPiece(p: Piece, rest: string)
    requires p.Tag? ==> IsTagBody(p.body)
    ensures StripTags(PrintPiece(p) + rest) == (if p.Tag? then "" else Escape(p.plain)) + StripTags(rest)
  {
    if p.Tag? {
      StripTag(p.body, rest);
    } else {
      EscapeHasNoAngles(p.plain);
      StripText(Escape(p.plain), rest);
    }
  }

  lemma {:induction false} StripLeavesEscapedText(pieces: seq<Piece>)
    requires WellTagged(pieces)
    ensures StripTags(Print(pieces)) == Escaped(pieces)
    decreases |pieces|
  {
    if |pieces| > 0 {
      assert forall p <- pieces[1..] :: p in pieces;
      StripLeavesEscapedText(pieces[1..]);
      StripPiece(pieces[0], Print(pieces[1..]));
    }
  }

  lemma {:induction false} UnescapeLeavesPlain(pieces: seq<Piece>)
    ensures Unescape(Escaped(pieces)) == Plain(pieces)
    decreases |pieces|
  {
    if |pieces| > 0 {
      UnescapeLeavesPlain(pieces[1..]);
      if pieces[0].Text? {
        UnescapeInvertsEscape(pieces[0].plain, Escaped(pieces[1..]));
      } else {
        assert Escaped(pieces) == Escaped(pieces[1..]);
      }
    }
  }

  /** Stripping the tags of any printed message and unescaping what is left gives back
      exactly the plain text it was printed from. */
  lemma StrippingInvertsPrinting(pieces: seq<Piece>)
    requires WellTagged(pieces)
    ensures Unescape(StripTags(Print(pieces))) == Plain(pieces)
  {
    StripLeavesEscapedText(pieces);
    UnescapeLeavesPlain(pieces);
  }
}
