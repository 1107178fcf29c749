/**
  The fragment of JavaScript regular expressions and of `String.prototype.replace`
  that the preview renderer relies on.

  A pattern is a sequence of atoms matched left to right with backtracking, as in
  section 22.2 of ECMA-262 (the RegExp pattern semantics), without the `m` flag:
  - `EndOfInput` is `$` written outside a character class: an assertion that the
    current position is the end of the input;
  - `Dollar` is `\$`: one literal dollar sign;
  - `NonDollarRun` is `([^$]+)`: capture group 1, one or more characters other
    than `$`, greedy (longest first, then shorter on backtracking).
*/
module Pattern {
  import opened Wrappers

  datatype Atom = EndOfInput | Dollar | NonDollarRun

  /** The characters `start..end` of the input captured by group 1. */
  datatype Span = Span(start: nat, end: nat)

  /** A successful match ends at `end` and may have captured group 1. */
  datatype Match = Match(end: nat, group: Option<Span>)

  ghost predicate SpanWithin(g: Option<Span>, s: string)
  {
    g.Some? ==> g.value.start <= g.value.end <= |s|
  }

  /** The end of the longest run of non-`$` characters starting at `i`. */
  function RunEnd(s: string, i: nat): (j: nat)
    requires i <= |s|
    ensures i <= j <= |s|
    ensures forall k :: i <= k < j ==> s[k] != '$'
    ensures j < |s| ==> s[j] == '$'
    decreases |s| - i
  {
    if i < |s| && s[i] != '$' then RunEnd(s, i + 1) else i
  }

  /**
    Matches the pattern `p` against `s` starting exactly at position `i`; `g` is
    what group 1 has captured so far. Returns the first match in backtracking order.
  */
  function MatchFrom(p: seq<Atom>, s: string, i: nat, g: Option<Span>): (r: Option<Match>)
    requires i <= |s|
    requires SpanWithin(g, s)
    ensures r.Some? ==> i <= r.value.end <= |s| && SpanWithin(r.value.group, s)
    decreases |p|, |s| + 1 - i
  {
    if p == [] then Some(Match(i, g))
    else
      match p[0]
      case EndOfInput => if i == |s| then MatchFrom(p[1..], s, i, g) else None
      case Dollar => if i < |s| && s[i] == '$' then MatchFrom(p[1..], s, i + 1, g) else None
      case NonDollarRun => Backtrack(p[1..], s, i, RunEnd(s, i))
  }

  /**
    The greedy `[^$]+` at `i`: tries the run `i..j`, then shorter runs, and continues
    each with the rest of the pattern.
  */
  function Backtrack(rest: seq<Atom>, s: string, i: nat, j: nat): (r: Option<Match>)
    requires i <= j <= |s|
    ensures r.Some? ==> i < r.value.end <= |s| && SpanWithin(r.value.group, s)
    decreases |rest| + 1, j - i
  {
    if j == i then None
    else
      match MatchFrom(rest, s, j, Some(Span(i, j)))
      case Some(m) => Some(m)
      case None => Backtrack(rest, s, i, j - 1)
  }

  /** The text captured by group 1, or "" when the group took no part in the match. */
  function Captured(s: string, g: Option<Span>): string
    requires SpanWithin(g, s)
  {
    if g.Some? then s[g.value.start..g.value.end] else ""
  }

  /**
    `s.replace(p, f)` with the global flag, from position `i` on: each match is
    replaced by `f(match, group 1)`, the text between matches is kept, and after an
    empty match the search moves on by one character. A callback that gives back
    each match unchanged, as both callbacks do when KaTeX throws, leaves the text as
    it is.
  */
  function ReplaceFrom(p: seq<Atom>, s: string, f: (string, string) -> string, i: nat): (r: string)
    requires i <= |s|
    ensures (forall m, l :: f(m, l) == m) ==> r == s[i..]
    decreases |s| - i
  {
    match MatchFrom(p, s, i, None)
    case Some(m) =>
      var replaced := f(s[i..m.end], Captured(s, m.group));
      if m.end > i then
        assert s[i..] == s[i..m.end] + s[m.end..];
        replaced + ReplaceFrom(p, s, f, m.end)
      else if i < |s| then
        assert s[i..] == [s[i]] + s[i + 1..];
        replaced + [s[i]] + ReplaceFrom(p, s, f, i + 1)
      else replaced
    case None =>
      if i < |s| then
        assert s[i..] == [s[i]] + s[i + 1..];
        [s[i]] + ReplaceFrom(p, s, f, i + 1)
      else ""
  }

  /** `s.replace(p, f)` with the global flag; a pattern that matches nowhere changes nothing. */
  function ReplaceAll(p: seq<Atom>, s: string, f: (string, string) -> string): (r: string)
    ensures (forall k :: 0 <= k <= |s| ==> MatchFrom(p, s, k, None).None?) ==> r == s
  {
    if forall k :: 0 <= k <= |s| ==> MatchFrom(p, s, k, None).None? then
      ReplaceWithoutMatchIsIdentity(p, s, f, 0);
      assert s[0..] == s;
      ReplaceFrom(p, s, f, 0)
    else
      ReplaceFrom(p, s, f, 0)
  }

  /** Backtracking fails when every run length it may try fails. */
  lemma {:induction false} BacktrackFails(rest: seq<Atom>, s: string, i: nat, j: nat)
    requires i <= j <= |s|
    requires forall k :: i < k <= j ==> MatchFrom(rest, s, k, Some(Span(i, k))).None?
    ensures Backtrack(rest, s, i, j).None?
    decreases j - i
  {
    if j > i {
      BacktrackFails(rest, s, i, j - 1);
    }
  }

  /**
    A pattern in which an end-of-input assertion is directly followed by `[^$]+`
    matches nowhere: after the assertion no character is left for the run.
  */
  lemma {:induction false} EndThenRunNeverMatches(pre: seq<Atom>, post: seq<Atom>, s: string, i: nat, g: Option<Span>)
    requires i <= |s|
    requires SpanWithin(g, s)
    ensures MatchFrom(pre + [EndOfInput, NonDollarRun] + post, s, i, g).None?
    decreases |pre|
  {
    var p := pre + [EndOfInput, NonDollarRun] + post;
    if pre == [] {
      assert p[0] == EndOfInput && p[1..] == [NonDollarRun] + post;
      if i == |s| {
        assert MatchFrom(p[1..], s, i, g) == Backtrack(post, s, i, i);
      }
    } else {
      var tail := pre[1..] + [EndOfInput, NonDollarRun] + post;
      assert p[0] == pre[0] && p[1..] == tail;
      match pre[0]
      case EndOfInput =>
        if i == |s| {
          EndThenRunNeverMatches(pre[1..], post, s, i, g);
        }
      case Dollar =>
        if i < |s| && s[i] == '$' {
          EndThenRunNeverMatches(pre[1..], post, s, i + 1, g);
        }
      case NonDollarRun =>
        var j := RunEnd(s, i);
        forall k | i < k <= j
          ensures MatchFrom(tail, s, k, Some(Span(i, k))).None?
        {
          EndThenRunNeverMatches(pre[1..], post, s, k, Some(Span(i, k)));
        }
        BacktrackFails(tail, s, i, j);
    }
  }

  /** A global replace that finds no match anywhere leaves the text as it is. */
  lemma {:induction false} ReplaceWithoutMatchIsIdentity(p: seq<Atom>, s: string, f: (string, string) -> string, i: nat)
    requires i <= |s|
    requires forall k :: i <= k <= |s| ==> MatchFrom(p, s, k, None).None?
    ensures ReplaceFrom(p, s, f, i) == s[i..]
    decreases |s| - i
  {
    if i < |s| {
      ReplaceWithoutMatchIsIdentity(p, s, f, i + 1);
      assert s[i..] == [s[i]] + s[i + 1..];
    }
  }

  /** In a text without `$`, a pattern that begins with a literal dollar matches nowhere. */
  lemma DollarFirstNeverMatches(rest: seq<Atom>, s: string, i: nat)
    requires i <= |s|
    requires '$' !in s
    ensures MatchFrom([Dollar] + rest, s, i, None).None?
  {
    assert ([Dollar] + rest)[0] == Dollar;
    assert i < |s| ==> s[i] in s;
  }
}
