/**
  `renderLatex` of the content script: a display pass and then an inline pass of
  global regular-expression replacement over the message text, each match going
  through a callback that wraps KaTeX's output in a tagged `<span>`, or gives the
  match back unchanged when KaTeX throws.

  The two patterns as written, `/$$([^$]+)$$/g` and `/$([^$]+)$/g`, use `$` outside
  the character class, which is the end-of-input assertion, not a literal dollar.
  Neither can ever match, so `RenderLatex` returns every text unchanged
  (`RenderLatexIsIdentity`). The literal-dollar reading that the comments and the
  preview's hint text describe is `IntendedRenderLatex`, a separate definition that
  is not the program's behaviour.
*/
module LatexRenderer {
  import opened Wrappers
  import opened Pattern

  /** What `katex.renderToString` does with one expression: return markup or throw. */
  datatype Typeset = Rendered(markup: string) | Threw

  /** `katex.renderToString(latex, { displayMode, throwOnError: false })`, left uninterpreted. */
  type Typesetter = (string, bool) -> Typeset

  /** `/$$([^$]+)$$/g` as written. */
  const DisplayPattern: seq<Atom> := [EndOfInput, EndOfInput, NonDollarRun, EndOfInput, EndOfInput]
  /** `/$([^$]+)$/g` as written. */
  const InlinePattern: seq<Atom> := [EndOfInput, NonDollarRun, EndOfInput]

  const BlockOpen: string := "<span class=\"math-preview-block\">"
  const InlineOpen: string := "<span class=\"math-preview-inline\">"
  const SpanClose: string := "</span>"

  /** The display-mode callback: the block-tagged KaTeX output, or the match itself on an exception. */
  function DisplayReplacement(render: Typesetter, matched: string, latex: string): (r: string)
    ensures render(latex, true).Rendered? ==> r == BlockOpen + render(latex, true).markup + SpanClose
    ensures render(latex, true).Threw? ==> r == matched
  {
    match render(latex, true)
    case Rendered(markup) => BlockOpen + markup + SpanClose
    case Threw => matched
  }

  /** The inline-mode callback: the inline-tagged KaTeX output, or the match itself on an exception. */
  function InlineReplacement(render: Typesetter, matched: string, latex: string): (r: string)
    ensures render(latex, false).Rendered? ==> r == InlineOpen + render(latex, false).markup + SpanClose
    ensures render(latex, false).Threw? ==> r == matched
  {
    match render(latex, false)
    case Rendered(markup) => InlineOpen + markup + SpanClose
    case Threw => matched
  }

  /** `renderLatex(text)`; `katex` is `window.katex`, absent until the engine has loaded. */
  function RenderLatex(katex: Option<Typesetter>, text: string): (r: string)
    ensures katex.None? ==> r == text
  {
    match katex
    case None => text
    case Some(render) =>
      var afterDisplay := ReplaceAll(DisplayPattern, text, (m, l) => DisplayReplacement(render, m, l));
      ReplaceAll(InlinePattern, afterDisplay, (m, l) => InlineReplacement(render, m, l))
  }

  /** The display pattern as written has no match at any position of any text. */
  lemma DisplayPatternNeverMatches(s: string, i: nat)
    requires i <= |s|
    ensures MatchFrom(DisplayPattern, s, i, None).None?
  {
    assert DisplayPattern == [EndOfInput] + [EndOfInput, NonDollarRun] + [EndOfInput, EndOfInput];
    EndThenRunNeverMatches([EndOfInput], [EndOfInput, EndOfInput], s, i, None);
  }

  /** The inline pattern as written has no match at any position of any text. */
  lemma InlinePatternNeverMatches(s: string, i: nat)
    requires i <= |s|
    ensures MatchFrom(InlinePattern, s, i, None).None?
  {
    assert InlinePattern == [] + [EndOfInput, NonDollarRun] + [EndOfInput];
    EndThenRunNeverMatches([], [EndOfInput], s, i, None);
  }

  /** `renderLatex` returns its input unchanged, whether or not KaTeX is loaded. */
  lemma RenderLatexIsIdentity(katex: Option<Typesetter>, text: string)
    ensures RenderLatex(katex, text) == text
  {
    if katex.Some? {
      var render := katex.value;
      var onDisplay := (m, l) => DisplayReplacement(render, m, l);
      var onInline := (m, l) => InlineReplacement(render, m, l);
      forall k | 0 <= k <= |text| ensures MatchFrom(DisplayPattern, text, k, None).None? {
        DisplayPatternNeverMatches(text, k);
      }
      ReplaceWithoutMatchIsIdentity(DisplayPattern, text, onDisplay, 0);
      forall k | 0 <= k <= |text| ensures MatchFrom(InlinePattern, text, k, None).None? {
        InlinePatternNeverMatches(text, k);
      }
      ReplaceWithoutMatchIsIdentity(InlinePattern, text, onInline, 0);
      assert text[0..] == text;
    }
  }

  // ---------------------------------------------------------------------------
  // The intended reading: `\$` as a literal dollar. Not the program's behaviour.
  // ---------------------------------------------------------------------------

  /** `/\$\$([^$]+)\$\$/g`: what the display pass is meant to match. */
  const IntendedDisplayPattern: seq<Atom> := [Dollar, Dollar, NonDollarRun, Dollar, Dollar]
  /** `/\$([^$]+)\$/g`: what the inline pass is meant to match. */
  const IntendedInlinePattern: seq<Atom> := [Dollar, NonDollarRun, Dollar]

  /** `renderLatex` with literal-dollar patterns, display pass first, same callbacks. */
  function IntendedRenderLatex(katex: Option<Typesetter>, text: string): (r: string)
    ensures katex.None? ==> r == text
  {
    match katex
    case None => text
    case Some(render) =>
      var afterDisplay := ReplaceAll(IntendedDisplayPattern, text, (m, l) => DisplayReplacement(render, m, l));
      ReplaceAll(IntendedInlinePattern, afterDisplay, (m, l) => InlineReplacement(render, m, l))
  }

  /** With literal dollars, a text without `$` passes through both passes unchanged. */
  lemma IntendedWithoutDollarIsIdentity(katex: Option<Typesetter>, text: string)
    requires '$' !in text
    ensures IntendedRenderLatex(katex, text) == text
  {
    if katex.Some? {
      var render := katex.value;
      forall k | 0 <= k <= |text| ensures MatchFrom(IntendedDisplayPattern, text, k, None).None? {
        assert IntendedDisplayPattern == [Dollar] + IntendedDisplayPattern[1..];
        DollarFirstNeverMatches(IntendedDisplayPattern[1..], text, k);
      }
      ReplaceWithoutMatchIsIdentity(IntendedDisplayPattern, text, (m, l) => DisplayReplacement(render, m, l), 0);
      forall k | 0 <= k <= |text| ensures MatchFrom(IntendedInlinePattern, text, k, None).None? {
        assert IntendedInlinePattern == [Dollar] + IntendedInlinePattern[1..];
        DollarFirstNeverMatches(IntendedInlinePattern[1..], text, k);
      }
      ReplaceWithoutMatchIsIdentity(IntendedInlinePattern, text, (m, l) => InlineReplacement(render, m, l), 0);
      assert text[0..] == text;
    }
  }

  /** A literal-dollar display match needs two adjacent dollars where it starts. */
  lemma IntendedDisplayNeedsTwoDollars(s: string, i: nat)
    requires i <= |s|
    ensures MatchFrom(IntendedDisplayPattern, s, i, None).Some? ==> i + 1 < |s| && s[i] == '$' && s[i + 1] == '$'
  {
    var p := IntendedDisplayPattern;
    assert p[0] == Dollar && p[1..][0] == Dollar;
    if MatchFrom(p, s, i, None).Some? {
      assert i < |s| && s[i] == '$';
      assert MatchFrom(p[1..], s, i + 1, None).Some?;
    }
  }

  /** The run of non-`$` characters from `i` stops at the first `$`. */
  lemma RunEndAt(s: string, i: nat, j: nat)
    requires i <= j < |s| && s[j] == '$'
    requires forall k :: i <= k < j ==> s[k] != '$'
    ensures RunEnd(s, i) == j
  {
  }

  /** Inside `prefix + e + suffix` with no `$` in `e`, the characters of `e` are not `$`. */
  lemma NoDollarInside(prefix: string, e: string, suffix: string)
    requires '$' !in e
    ensures forall k :: |prefix| <= k < |prefix| + |e| ==> (prefix + e + suffix)[k] != '$'
  {
    var s := prefix + e + suffix;
    forall k | |prefix| <= k < |prefix| + |e| ensures s[k] != '$' {
      assert s[k] == e[k - |prefix|] && e[k - |prefix|] in e;
    }
  }

  /** With literal dollars, `$E$` becomes one inline-tagged span around KaTeX's output for E. */
  lemma IntendedInlineSpan(render: Typesetter, e: string)
    requires e != [] && '$' !in e
    requires render(e, false).Rendered?
    ensures IntendedRenderLatex(Some(render), "$" + e + "$") == InlineOpen + render(e, false).markup + SpanClose
  {
    var s := "$" + e + "$";
    var n := |s|;
    var onDisplay := (m, l) => DisplayReplacement(render, m, l);
    var onInline := (m, l) => InlineReplacement(render, m, l);
    NoDollarInside("$", e, "$");
    // No two adjacent dollars, so the display pass leaves `s` alone.
    forall k | 0 <= k <= n ensures MatchFrom(IntendedDisplayPattern, s, k, None).None? {
      IntendedDisplayNeedsTwoDollars(s, k);
    }
    ReplaceWithoutMatchIsIdentity(IntendedDisplayPattern, s, onDisplay, 0);
    assert s[0..] == s;
    // The inline pass matches the whole of `s`, capturing `e`.
    RunEndAt(s, 1, n - 1);
    var j := n - 1;
    var p := IntendedInlinePattern;
    var g := Some(Span(1, j));
    assert p[0] == Dollar && p[1..] == [NonDollarRun, Dollar] && [NonDollarRun, Dollar][1..] == [Dollar];
    assert MatchFrom([Dollar], s, j, g) == MatchFrom([], s, n, g) == Some(Match(n, g));
    assert Backtrack([Dollar], s, 1, j) == Some(Match(n, g));
    assert MatchFrom(p[1..], s, 1, None) == Backtrack([Dollar], s, 1, j);
    assert MatchFrom(p, s, 0, None) == Some(Match(n, g));
    assert s[1..j] == e && s[0..n] == s;
    assert MatchFrom(p, s, n, None).None?;
    assert ReplaceFrom(p, s, onInline, n) == "";
    assert ReplaceFrom(p, s, onInline, 0) == InlineReplacement(render, s, e);
  }

  /**
    With literal dollars, `$$E$$` becomes one block-tagged span around KaTeX's output
    for E, provided that output holds no `$` for the inline pass to act on.
  */
  lemma IntendedDisplaySpan(render: Typesetter, e: string)
    requires e != [] && '$' !in e
    requires render(e, true).Rendered? && '$' !in render(e, true).markup
    ensures IntendedRenderLatex(Some(render), "$$" + e + "$$") == BlockOpen + render(e, true).markup + SpanClose
  {
    var s := "$$" + e + "$$";
    var n := |s|;
    var onDisplay := (m, l) => DisplayReplacement(render, m, l);
    NoDollarInside("$$", e, "$$");
    RunEndAt(s, 2, n - 2);
    var j := n - 2;
    var p := IntendedDisplayPattern;
    var g := Some(Span(2, j));
    assert p[0] == Dollar && p[1..] == [Dollar, NonDollarRun, Dollar, Dollar];
    assert p[1..][1..] == [NonDollarRun, Dollar, Dollar] && p[1..][1..][1..] == [Dollar, Dollar];
    assert [Dollar, Dollar][1..] == [Dollar] && [Dollar][1..] == [];
    assert MatchFrom([Dollar], s, j + 1, g) == MatchFrom([], s, n, g) == Some(Match(n, g));
    assert MatchFrom([Dollar, Dollar], s, j, g) == Some(Match(n, g));
    assert Backtrack([Dollar, Dollar], s, 2, j) == Some(Match(n, g));
    assert MatchFrom(p[1..][1..], s, 2, None) == Backtrack([Dollar, Dollar], s, 2, j);
    assert MatchFrom(p[1..], s, 1, None) == MatchFrom(p[1..][1..], s, 2, None);
    assert MatchFrom(p, s, 0, None) == Some(Match(n, g));
    assert s[2..j] == e && s[0..n] == s;
    assert MatchFrom(p, s, n, None).None?;
    assert ReplaceFrom(p, s, onDisplay, n) == "";
    var markup := render(e, true).markup;
    var d := BlockOpen + markup + SpanClose;
    assert ReplaceFrom(p, s, onDisplay, 0) == d;
    // The block span holds no `$`, so the inline pass leaves it alone.
    assert '$' !in d by {
      NoDollarInside(BlockOpen, markup, SpanClose);
      forall k | 0 <= k < |d| ensures d[k] != '$' {
        if k < |BlockOpen| {
          assert d[k] == BlockOpen[k];
        } else if k >= |BlockOpen| + |markup| {
          assert d[k] == SpanClose[k - |BlockOpen| - |markup|];
        }
      }
    }
    forall k | 0 <= k <= |d| ensures MatchFrom(IntendedInlinePattern, d, k, None).None? {
      assert IntendedInlinePattern == [Dollar] + IntendedInlinePattern[1..];
      DollarFirstNeverMatches(IntendedInlinePattern[1..], d, k);
    }
    ReplaceWithoutMatchIsIdentity(IntendedInlinePattern, d, (m, l) => InlineReplacement(render, m, l), 0);
    assert d[0..] == d;
  }

  /**
    The discrepancy on one message: `$x$` is shown raw by the program as written, but
    becomes an inline span under the literal-dollar reading.
  */
  lemma AsWrittenLeavesInlineMathRaw(render: Typesetter)
    requires render("x", false).Rendered?
    ensures RenderLatex(Some(render), "$x$") == "$x$"
    ensures IntendedRenderLatex(Some(render), "$x$") != "$x$"
  {
    RenderLatexIsIdentity(Some(render), "$x$");
    IntendedInlineSpan(render, "x");
    assert "$" + "x" + "$" == "$x$";
    var r := InlineOpen + render("x", false).markup + SpanClose;
    assert |r| > 3;
  }
}
