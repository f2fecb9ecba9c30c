/** The string operations several components share: case folding and stripping. */
module Text {

  function LowerChar(c: char): char { if 'A' <= c <= 'Z' then c + ('a' - 'A') else c }

  function Lower(s: string): string { seq(|s|, i requires 0 <= i < |s| => LowerChar(s[i])) }

  /** The characters a plain `strip` removes. */
  predicate IsSpace(c: char) {
    var n := c as int;
    9 <= n <= 13 || 28 <= n <= 32 || n == 133 || n == 160 || n == 5760 || 8192 <= n <= 8202 ||
    n == 8232 || n == 8233 || n == 8239 || n == 8287 || n == 12288
  }

  function StripEnd(s: string, strip: char -> bool): (r: string)
    ensures r <= s
    ensures r != "" ==> !strip(r[|r| - 1])
    ensures forall i | |r| <= i < |s| :: strip(s[i])
    decreases |s|
  {
    if s != "" && strip(s[|s| - 1]) then StripEnd(s[..|s| - 1], strip) else s
  }

  function StripStart(s: string, strip: char -> bool): string
    decreases |s|
  {
    if s != "" && strip(s[0]) then StripStart(s[1..], strip) else s
  }

  function Strip(s: string): string { StripStart(StripEnd(s, IsSpace), IsSpace) }

  lemma {:induction false} StripStartCuts(s: string, strip: char -> bool)
    ensures var r := StripStart(s, strip);
            && |r| <= |s| && r == s[|s| - |r|..] && (r != "" ==> !strip(r[0]))
            && forall i | 0 <= i < |s| - |r| :: strip(s[i])
    decreases |s|
  {
    if s != "" && strip(s[0]) {
      StripStartCuts(s[1..], strip);
    }
  }

  /** What stands at `a` between blanks, itself beginning and ending in something else. */
  predicate IsCore(s: string, a: nat, core: string) {
    && a + |core| <= |s| && s[a..a + |core|] == core
    && (core != "" ==> !IsSpace(core[0]) && !IsSpace(core[|core| - 1]))
    && (forall i | 0 <= i < a :: IsSpace(s[i])) && (forall i | a + |core| <= i < |s| :: IsSpace(s[i]))
  }

  lemma StripCutsBlanks(s: string)
    ensures exists a: nat :: IsCore(s, a, Strip(s))
  {
    var t, core := StripEnd(s, IsSpace), Strip(s);
    var a := |t| - |core|;
    StripStartCuts(t, IsSpace);
    assert core == t[a..] && t == s[..|t|];
    assert s[a..a + |core|] == core;
    forall i | 0 <= i < a ensures IsSpace(s[i]) {
      assert IsSpace(t[i]);
    }
    if core != "" {
      assert core[|core| - 1] == t[|t| - 1];
    }
    assert IsCore(s, a, core);
  }

  /** Only one text is left when the blanks at both ends are cut. */
  lemma CoreIsStripped(s: string, a: nat, core: string)
    requires IsCore(s, a, core) && core != ""
    ensures Strip(s) == core
  {
    var t := StripEnd(s, IsSpace);
    StripStartCuts(t, IsSpace);
    assert core[0] == s[a] && core[|core| - 1] == s[a + |core| - 1];
    assert |t| == a + |core|;
    assert t[a] == s[a];
    assert |Strip(s)| == |core|;
  }
}
