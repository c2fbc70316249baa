/**
 * `escape_xml` of estaciones.py: `None` becomes the empty string, anything
 * else goes through `xml.sax.saxutils.escape`, which performs three
 * `str.replace` calls in a fixed order: `&` first, then `>`, then `<`.
 *
 * The model keeps that shape (three `Replace` passes), proves it equal to a
 * per-character reference (`FlatMap(EscapeChar, s)`), and proves the
 * properties a caller relies on against the reference: no raw angle bracket
 * survives, every `&` starts an entity, the `saxutils.unescape` order of
 * replacements undoes it, and markup-free text is left alone.
 */
module XmlEscape {
  import opened Wrappers

  // ---------------------------------------------------------------------------
  // Python's str.replace

  /**
   * `s.replace(pat, rep)` for a non-empty pattern: scan left to right, replace
   * each leftmost occurrence and resume after it, so occurrences never overlap.
   */
  function Replace(s: string, pat: string, rep: string): string
    requires |pat| > 0
    decreases |s|
  {
    if |s| < |pat| then s
    else if s[..|pat|] == pat then rep + Replace(s[|pat|..], pat, rep)
    else [s[0]] + Replace(s[1..], pat, rep)
  }

  /** Text that does not contain the pattern's first character passes through a pass unchanged. */
  lemma {:induction false} ReplaceSkips(u: string, t: string, pat: string, rep: string)
    requires |pat| > 0 && pat[0] !in u
    ensures Replace(u + t, pat, rep) == u + Replace(t, pat, rep)
    decreases |u|
  {
    if u != [] {
      assert (u + t)[1..] == u[1..] + t;
      assert (u + t)[0] != pat[0];
      ReplaceSkips(u[1..], t, pat, rep);
      assert u == [u[0]] + u[1..];
    } else {
      assert u + t == t;
    }
  }

  /** An occurrence of the pattern at the front is replaced, and the scan resumes after it. */
  lemma ReplaceHits(t: string, pat: string, rep: string)
    requires |pat| > 0
    ensures Replace(pat + t, pat, rep) == rep + Replace(t, pat, rep)
  {
    assert (pat + t)[..|pat|] == pat;
    assert (pat + t)[|pat|..] == t;
  }

  /** A string that starts like an entity but differs from `pat` keeps its `&` and moves on. */
  lemma ReplaceMisses(u: string, t: string, pat: string, rep: string)
    requires |pat| >= 2 && |u| >= |pat| && u[1] != pat[1] && pat[0] !in u[1..]
    ensures Replace(u + t, pat, rep) == u + Replace(t, pat, rep)
  {
    var s := u + t;
    assert s[..|pat|][1] == u[1];
    assert s[..|pat|] != pat;
    assert Replace(s, pat, rep) == [s[0]] + Replace(s[1..], pat, rep);
    assert s[1..] == u[1..] + t;
    ReplaceSkips(u[1..], t, pat, rep);
    assert u == [u[0]] + u[1..];
  }

  // ---------------------------------------------------------------------------
  // A per-character reference

  /** Maps each character to a string and concatenates the results in order. */
  function FlatMap(f: char -> string, s: string): string {
    if s == [] then [] else f(s[0]) + FlatMap(f, s[1..])
  }

  function Single(c: char): string {
    [c]
  }

  lemma {:induction false} FlatMapSingle(s: string)
    ensures FlatMap(Single, s) == s
  {
    if s != [] {
      FlatMapSingle(s[1..]);
      assert s == [s[0]] + s[1..];
    }
  }

  lemma {:induction false} FlatMapAppend(f: char -> string, a: string, b: string)
    ensures FlatMap(f, a + b) == FlatMap(f, a) + FlatMap(f, b)
  {
    if a != [] {
      assert (a + b)[1..] == a[1..] + b;
      FlatMapAppend(f, a[1..], b);
    } else {
      assert a + b == b;
    }
  }

  /**
   * One `replace` pass over text that is a concatenation of per-character
   * blocks `f(c)` yields the concatenation of the blocks `g(c)`, provided the
   * pass turns each block into its new block without looking past it.
   */
  lemma {:induction false} PassOverBlocks(f: char -> string, g: char -> string, pat: string, rep: string, s: string)
    requires |pat| > 0
    requires forall c, t :: Replace(f(c) + t, pat, rep) == g(c) + Replace(t, pat, rep)
    ensures Replace(FlatMap(f, s), pat, rep) == FlatMap(g, s)
  {
    if s != [] {
      PassOverBlocks(f, g, pat, rep, s[1..]);
      assert Replace(f(s[0]) + FlatMap(f, s[1..]), pat, rep) == g(s[0]) + Replace(FlatMap(f, s[1..]), pat, rep);
    }
  }

  // ---------------------------------------------------------------------------
  // saxutils.escape

  predicate IsMarkup(c: char) {
    c == '&' || c == '<' || c == '>'
  }

  /** Text in which escaping has nothing to do. */
  predicate NoMarkup(s: string) {
    '&' !in s && '<' !in s && '>' !in s
  }

  /** What a single character becomes in the escaped text. */
  function EscapeChar(c: char): string {
    if c == '&' then "&amp;"
    else if c == '<' then "&lt;"
    else if c == '>' then "&gt;"
    else [c]
  }

  /** `xml.sax.saxutils.escape(s)` with its default (empty) entity table. */
  function Escape(s: string): string {
    var amp := Replace(s, "&", "&amp;");
    var gt := Replace(amp, ">", "&gt;");
    Replace(gt, "<", "&lt;")
  }

  /** `escape_xml(value)`: `None` gives the empty string; otherwise `str(value)` is escaped. */
  function EscapeXml(value: Option<string>): (r: string)
    ensures value.None? ==> r == ""
    ensures value.Some? ==> '<' !in r && '>' !in r
  {
    match value
    case None => ""
    case Some(s) => NoAngleBrackets(s); Escape(s)
  }

  // The blocks after the first and second pass of Escape.
  function AfterAmp(c: char): string {
    if c == '&' then "&amp;" else [c]
  }

  function AfterGt(c: char): string {
    if c == '&' then "&amp;" else if c == '>' then "&gt;" else [c]
  }

  lemma AmpPass(c: char, t: string)
    ensures Replace(Single(c) + t, "&", "&amp;") == AfterAmp(c) + Replace(t, "&", "&amp;")
  {
    if c == '&' {
      ReplaceHits(t, "&", "&amp;");
    } else {
      ReplaceSkips([c], t, "&", "&amp;");
    }
  }

  lemma GtPass(c: char, t: string)
    ensures Replace(AfterAmp(c) + t, ">", "&gt;") == AfterGt(c) + Replace(t, ">", "&gt;")
  {
    if c == '>' {
      ReplaceHits(t, ">", "&gt;");
    } else {
      ReplaceSkips(AfterAmp(c), t, ">", "&gt;");
    }
  }

  lemma LtPass(c: char, t: string)
    ensures Replace(AfterGt(c) + t, "<", "&lt;") == EscapeChar(c) + Replace(t, "<", "&lt;")
  {
    if c == '<' {
      ReplaceHits(t, "<", "&lt;");
    } else {
      ReplaceSkips(AfterGt(c), t, "<", "&lt;");
    }
  }

  /** The three sequential passes of `saxutils.escape` amount to replacing each character on its own. */
  lemma EscapeIsPerCharacter(s: string)
    ensures Escape(s) == FlatMap(EscapeChar, s)
  {
    forall c, t ensures Replace(Single(c) + t, "&", "&amp;") == AfterAmp(c) + Replace(t, "&", "&amp;") {
      AmpPass(c, t);
    }
    forall c, t ensures Replace(AfterAmp(c) + t, ">", "&gt;") == AfterGt(c) + Replace(t, ">", "&gt;") {
      GtPass(c, t);
    }
    forall c, t ensures Replace(AfterGt(c) + t, "<", "&lt;") == EscapeChar(c) + Replace(t, "<", "&lt;") {
      LtPass(c, t);
    }
    FlatMapSingle(s);
    PassOverBlocks(Single, AfterAmp, "&", "&amp;", s);
    PassOverBlocks(AfterAmp, AfterGt, ">", "&gt;", s);
    PassOverBlocks(AfterGt, EscapeChar, "<", "&lt;", s);
  }

  /** Escaping distributes over concatenation. */
  lemma EscapeAppend(a: string, b: string)
    ensures Escape(a + b) == Escape(a) + Escape(b)
  {
    EscapeIsPerCharacter(a + b);
    EscapeIsPerCharacter(a);
    EscapeIsPerCharacter(b);
    FlatMapAppend(EscapeChar, a, b);
  }

  // ---------------------------------------------------------------------------
  // What the escaped text guarantees

  /** The escaped text contains no raw `<` and no raw `>`. */
  lemma {:induction false} NoAngleBrackets(s: string)
    ensures '<' !in Escape(s) && '>' !in Escape(s)
  {
    EscapeIsPerCharacter(s);
    NoAngleBracketsInBlocks(s);
  }

  lemma {:induction false} NoAngleBracketsInBlocks(s: string)
    ensures '<' !in FlatMap(EscapeChar, s) && '>' !in FlatMap(EscapeChar, s)
  {
    if s != [] {
      NoAngleBracketsInBlocks(s[1..]);
      var e := EscapeChar(s[0]);
      assert '<' !in e && '>' !in e;
    }
  }

  /** `r[i..]` starts with one of the three entities `escape` produces. */
  predicate EntityAt(r: string, i: int)
    requires 0 <= i < |r|
  {
    var rest := r[i..];
    (|rest| >= 5 && rest[..5] == "&amp;") ||
    (|rest| >= 4 && rest[..4] == "&lt;") ||
    (|rest| >= 4 && rest[..4] == "&gt;")
  }

  /** Every `&` in the escaped text begins `&amp;`, `&lt;` or `&gt;`. */
  lemma EveryAmpersandIsEntity(s: string)
    ensures forall i | 0 <= i < |Escape(s)| && Escape(s)[i] == '&' :: EntityAt(Escape(s), i)
  {
    EscapeIsPerCharacter(s);
    AmpersandsInBlocks(s);
  }

  lemma {:induction false} AmpersandsInBlocks(s: string)
    ensures forall i | 0 <= i < |FlatMap(EscapeChar, s)| && FlatMap(EscapeChar, s)[i] == '&' ::
      EntityAt(FlatMap(EscapeChar, s), i)
  {
    if s != [] {
      AmpersandsInBlocks(s[1..]);
      var e, r := EscapeChar(s[0]), FlatMap(EscapeChar, s[1..]);
      var whole := e + r;
      forall i | 0 <= i < |whole| && whole[i] == '&' ensures EntityAt(whole, i) {
        if i < |e| {
          assert i == 0;
          assert whole[i..][..|e|] == e;
        } else {
          assert whole[i] == r[i - |e|];
          assert whole[i..] == r[i - |e|..];
        }
      }
    }
  }

  /** Escaping never shortens text, and it lengthens exactly the text that holds markup. */
  lemma EscapeLength(s: string)
    ensures |Escape(s)| >= |s|
    ensures |Escape(s)| == |s| <==> NoMarkup(s)
  {
    EscapeIsPerCharacter(s);
    BlocksLength(s);
  }

  lemma {:induction false} BlocksLength(s: string)
    ensures |FlatMap(EscapeChar, s)| >= |s|
    ensures |FlatMap(EscapeChar, s)| == |s| <==> NoMarkup(s)
  {
    if s != [] {
      BlocksLength(s[1..]);
      assert s == [s[0]] + s[1..];
    }
  }

  /** Markup-free text, quotes and accented letters included, is returned unchanged; no other text is. */
  lemma {:induction false} EscapeIdentity(s: string)
    ensures Escape(s) == s <==> NoMarkup(s)
  {
    EscapeIsPerCharacter(s);
    BlocksLength(s);
    if NoMarkup(s) {
      UnchangedBlocks(s);
    }
  }

  /** `escape_xml` returns a markup-free value unchanged. */
  lemma EscapeXmlIdentity(s: string)
    requires NoMarkup(s)
    ensures EscapeXml(Some(s)) == s
  {
    EscapeIdentity(s);
  }

  /** Escaping leaves markup-free text unchanged. */
  lemma EscapePlain(s: string)
    requires NoMarkup(s)
    ensures Escape(s) == s
  {
    EscapeIdentity(s);
  }

  /** Escaping markup-free text around one `&` only rewrites that `&`. */
  lemma EscapeAroundAmpersand(a: string, b: string)
    requires NoMarkup(a) && NoMarkup(b)
    ensures Escape(a + "&" + b) == a + "&amp;" + b
  {
    EscapeAppend(a + "&", b);
    EscapeAppend(a, "&");
    EscapeIdentity(a);
    EscapeIdentity(b);
    EscapeIsPerCharacter("&");
  }

  lemma {:induction false} UnchangedBlocks(s: string)
    requires NoMarkup(s)
    ensures FlatMap(EscapeChar, s) == s
  {
    if s != [] {
      assert s == [s[0]] + s[1..];
      UnchangedBlocks(s[1..]);
    }
  }

  // ---------------------------------------------------------------------------
  // saxutils.unescape, the partner that undoes escape

  /** `xml.sax.saxutils.unescape(s)`: `&lt;`, then `&gt;`, then `&amp;`. */
  function Unescape(s: string): string {
    var lt := Replace(s, "&lt;", "<");
    var gt := Replace(lt, "&gt;", ">");
    Replace(gt, "&amp;", "&")
  }

  // The blocks of escaped text after the first and second pass of Unescape.
  function AfterLtBack(c: char): string {
    if c == '&' then "&amp;" else if c == '>' then "&gt;" else [c]
  }

  function AfterGtBack(c: char): string {
    if c == '&' then "&amp;" else [c]
  }

  lemma LtBackPass(c: char, t: string)
    ensures Replace(EscapeChar(c) + t, "&lt;", "<") == AfterLtBack(c) + Replace(t, "&lt;", "<")
  {
    if c == '<' {
      ReplaceHits(t, "&lt;", "<");
    } else if c == '&' {
      ReplaceMisses("&amp;", t, "&lt;", "<");
    } else if c == '>' {
      ReplaceMisses("&gt;", t, "&lt;", "<");
    } else {
      ReplaceSkips([c], t, "&lt;", "<");
    }
  }

  lemma GtBackPass(c: char, t: string)
    ensures Replace(AfterLtBack(c) + t, "&gt;", ">") == AfterGtBack(c) + Replace(t, "&gt;", ">")
  {
    if c == '>' {
      ReplaceHits(t, "&gt;", ">");
    } else if c == '&' {
      ReplaceMisses("&amp;", t, "&gt;", ">");
    } else {
      ReplaceSkips([c], t, "&gt;", ">");
    }
  }

  lemma AmpBackPass(c: char, t: string)
    ensures Replace(AfterGtBack(c) + t, "&amp;", "&") == Single(c) + Replace(t, "&amp;", "&")
  {
    if c == '&' {
      ReplaceHits(t, "&amp;", "&");
    } else {
      ReplaceSkips([c], t, "&amp;", "&");
    }
  }

  /** Round trip: unescaping the escaped text gives back the original. */
  lemma UnescapeEscape(s: string)
    ensures Unescape(Escape(s)) == s
  {
    forall c, t ensures Replace(EscapeChar(c) + t, "&lt;", "<") == AfterLtBack(c) + Replace(t, "&lt;", "<") {
      LtBackPass(c, t);
    }
    forall c, t ensures Replace(AfterLtBack(c) + t, "&gt;", ">") == AfterGtBack(c) + Replace(t, "&gt;", ">") {
      GtBackPass(c, t);
    }
    forall c, t ensures Replace(AfterGtBack(c) + t, "&amp;", "&") == Single(c) + Replace(t, "&amp;", "&") {
      AmpBackPass(c, t);
    }
    EscapeIsPerCharacter(s);
    PassOverBlocks(EscapeChar, AfterLtBack, "&lt;", "<", s);
    PassOverBlocks(AfterLtBack, AfterGtBack, "&gt;", ">", s);
    PassOverBlocks(AfterGtBack, Single, "&amp;", "&", s);
    FlatMapSingle(s);
  }

  /** Escaping is injective: distinct values never collide in the XML text. */
  lemma EscapeInjective(a: string, b: string)
    requires Escape(a) == Escape(b)
    ensures a == b
  {
    UnescapeEscape(a);
    UnescapeEscape(b);
  }
}
