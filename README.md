# instamat: a Dafny model of the math preview and its settings popup

instamat is a browser extension that is meant to show a live KaTeX preview of the
`$...$` and `$$...$$` math a user types into Instagram's message box. This project
models three parts of it in Dafny:

- `renderLatex` (`render_latex.dfy`, module `LatexRenderer`). It makes a display pass
  and then an inline pass of global regular-expression replacement. Each match goes
  through a callback. The callback wraps KaTeX's output in a tagged `<span>`, or it
  returns the match itself when KaTeX throws.
- The regular-expression and `String.prototype.replace` semantics those passes rely
  on (`pattern.dfy`, module `Pattern`). This is the subset of section 22.2 of ECMA-262
  (RegExp pattern semantics) that the patterns use: backtracking, a greedy `+`, one
  capture group, and the global search with its step over empty matches.
- The attachment controller of `initMathPreview` (`math_preview.dfy`, module
  `MathPreview`). It is a class with one method per event: a probe tick, a probe's
  timeout, a mutation notification, a text change and a close-button click.
  Elements are abstract ids. The document is the set of attached ids.
- The popup script's decisions (`popup.dfy`, module `Popup`). These are the
  theme-name table, the defaults for stored settings, the theme cards' `active`
  class, the status colour, and the instagram.com guard on outgoing messages.

The central result is `LatexRenderer.RenderLatexIsIdentity`: `renderLatex` returns
every text unchanged. In `/$$([^$]+)$$/g` and `/$([^$]+)$/g`, a `$` outside the
character class is the end-of-input assertion, not a literal dollar. A match would
need a character after the end of the input, so neither replacement ever fires
(`Pattern.EndThenRunNeverMatches`). As a consequence, whenever the message contains a `$`,
the preview box shows the message text itself, untypeset and parsed as HTML. The "no expression detected"
placeholder can never appear (`MathPreview.UpdatedBox`). The literal-dollar reading
described by the comments is modelled separately as
`LatexRenderer.IntendedRenderLatex`, and the program does not behave that way.

The controller's behaviour follows from the code as written, in four respects:

- Nothing is typeset (above), although the comments at `content.js:24` and `:35`
  and the hint at `content.js:61` describe display and inline math.
- A probe compares its hit only with `currentTextarea` (`content.js:82`). A leftover
  probe can therefore adopt a second element while one is attached. That element
  then reuses the existing box, which was inserted before the first element.
- When the adopted element is detached, only the `previewBox` reference is dropped
  (`content.js:135`); the old box stays wherever the page left it. The text and close
  listeners read the variable `previewBox` at the moment they run. After a
  re-attachment, an old element's listener writes into the new box. While
  `previewBox` is null, a listener throws before it changes anything.
- Every `observeTextarea()` call starts a new interval (`content.js:76`, `136`), and
  a probe clears only itself on success (`content.js:84`). Every mutation seen while
  nothing is adopted adds another probe. A probe that did not adopt keeps running
  until its own 30-second timeout.

## Model

| member | source | states |
|---|---|---|
| `LatexRenderer.RenderLatex` | instamat/content.js:19-47 | without `window.katex` the text is returned unchanged |
| `LatexRenderer.DisplayReplacement` | instamat/content.js:25-33 | display callback: when KaTeX succeeds, the result is exactly `<span class="math-preview-block">` + its display-mode output + `</span>`; when KaTeX throws, it is the original match verbatim |
| `LatexRenderer.InlineReplacement` | instamat/content.js:36-44 | inline callback: when KaTeX succeeds, the result is exactly `<span class="math-preview-inline">` + its inline-mode output + `</span>`; when KaTeX throws, it is the original match verbatim |
| `LatexRenderer.DisplayPatternNeverMatches` | instamat/content.js:25 | `/$$([^$]+)$$/g` as written has no match at any position of any text |
| `LatexRenderer.InlinePatternNeverMatches` | instamat/content.js:36 | `/$([^$]+)$/g` as written has no match at any position of any text |
| `LatexRenderer.RenderLatexIsIdentity` | instamat/content.js:19-47 | `renderLatex(t) == t` for every text and whether or not KaTeX is loaded |
| `LatexRenderer.IntendedRenderLatex` | instamat/content.js:24-44 | the literal-dollar reading of the two passes (not the program's behaviour); without KaTeX it is the identity |
| `LatexRenderer.IntendedWithoutDollarIsIdentity` | instamat/content.js:24-44 | under the literal-dollar reading, a text with no `$` is returned unchanged |
| `LatexRenderer.IntendedInlineSpan` | instamat/content.js:35-44 | under the literal-dollar reading, `$E$` (E non-empty, no `$`) becomes exactly one inline-tagged span around KaTeX's output for E |
| `LatexRenderer.IntendedDisplaySpan` | instamat/content.js:24-44 | under the literal-dollar reading, `$$E$$` becomes exactly one block-tagged span around KaTeX's display output for E, provided that output holds no `$` |
| `LatexRenderer.AsWrittenLeavesInlineMathRaw` | instamat/content.js:36 | on `$x$` the program as written returns `$x$`, while the literal-dollar reading does not |
| `Pattern.RunEnd` | instamat/content.js:25 | `[^$]+` from position i reaches exactly the first `$` at or after i, or the end of the text |
| `Pattern.MatchFrom` | instamat/content.js:25 | a match found at i ends between i and the end of the text, and its capture lies inside the text |
| `Pattern.Backtrack` | instamat/content.js:25 | the greedy `[^$]+` from i tries the longest run first and then shorter ones; a match it finds ends after i and inside the text, with its capture inside the text |
| `Pattern.ReplaceFrom` | instamat/content.js:25-44 | global `replace` with a callback from position i: each leftmost match is replaced by `f(match, group 1)`, the text between matches is kept, and after an empty match the search moves on one character; a callback that gives back every match unchanged (as both callbacks do when KaTeX throws) returns the text from i unchanged |
| `Pattern.ReplaceAll` | instamat/content.js:25-36 | `s.replace(p, f)` with the `g` flag; when the pattern matches at no position of `s`, the result is `s` |
| `Pattern.EndThenRunNeverMatches` | instamat/content.js:25 | a pattern where an end-of-input assertion is directly followed by `[^$]+` has no match, whatever comes before or after |
| `Pattern.ReplaceWithoutMatchIsIdentity` | instamat/content.js:25-36 | a global `replace` whose pattern matches at no position returns the text unchanged, whatever the callback |
| `Pattern.DollarFirstNeverMatches` | instamat/content.js:36 | a pattern beginning with a literal `$` matches nowhere in a text without `$` |
| `MathPreview.FirstHit` | instamat/content.js:78-80 | the hit is the contenteditable textbox if present, else the "Mesaj" textarea, else the "Message" textarea; it is null only when all three queries are |
| `MathPreview.ReadText` | instamat/content.js:99 | `innerText` if non-empty, else `value` when defined, else `''`; the result is empty exactly when neither holds text |
| `MathPreview.UpdatedBox` | instamat/content.js:98-110 | text without `$`: the box is hidden and its content untouched; text with `$`: the content becomes the text itself (never the placeholder) and the box is shown |
| `MathPreview.PlaceholderHasNoDollar` | instamat/content.js:105 | the placeholder message contains no `$` |
| `MathPreview.UpdateIsIdempotent` | instamat/content.js:112-114 | a second run of `updatePreview` on the same text changes nothing |
| `MathPreview.Controller.constructor` | instamat/content.js:68-73 | the controller starts with nothing adopted, no box (the first one created will be box 0), no listeners, and exactly one probe with its timeout pending |
| `MathPreview.Controller.ProbeTick` | instamat/content.js:76-118 | a first hit different from `currentTextarea` is adopted, only this probe is cleared, a box is created before the hit only if none exists, and the hit gets listeners; otherwise nothing changes; every probe stays covered by a pending timeout |
| `MathPreview.Controller.ProbeTimeout` | instamat/content.js:121 | after its timeout the probe is cleared; nothing else changes |
| `MathPreview.Controller.Mutation` | instamat/content.js:132-138 | if nothing is adopted or the adopted element is detached, both references become null and exactly one new probe (with its timeout) starts; otherwise only the document changes |
| `MathPreview.Controller.TextChanged` | instamat/content.js:98-114 | a listened element's change updates the box `previewBox` holds now as `UpdatedBox`, and does nothing when that reference is null |
| `MathPreview.Controller.CloseClicked` | instamat/content.js:92-94 | a close click hides the box `previewBox` holds now, which may be a different box from the one clicked; it does nothing when that reference is null |
| `Popup.ThemeName` | instamat/lib/popup.js:90-99 | silver, ocean, forest, sky, night map to Gümüş, Okyanus, Orman, Gökyüzü, Gece; any other id is returned unchanged |
| `Popup.ResolveEnabled` | instamat/lib/popup.js:13 | a stored value is used whenever present, so a stored `false` stays false; a missing value gives `true` |
| `Popup.ResolveTheme` | instamat/lib/popup.js:17 | a missing or empty stored theme gives `silver`, any other stored value is used; the result is never empty |
| `Popup.Contains` | instamat/lib/popup.js:43 | `s.includes(sub)` holds exactly when `sub` occurs at some position of `s` |
| `Popup.ShouldNotify` | instamat/lib/popup.js:43 | a message is sent exactly when there is an active tab with a URL that contains `instagram.com` |
| `Popup.Notification` | instamat/lib/popup.js:42-48 | a message goes to the active tab's id exactly when `ShouldNotify` holds |
| `Popup.IndicatorColour` | instamat/lib/popup.js:108-112 | `success` gives green, `error` gives red, any other kind keeps the current colour |
| `Popup.PopupPage.UpdateStatus` | instamat/lib/popup.js:102-112 | the status text is the message and the indicator colour is `IndicatorColour` of the old one |
| `Popup.PopupPage.MarkActive` | instamat/lib/popup.js:18-23 | every card of the theme becomes active, no card loses `active`, and no card's theme changes |
| `Popup.PopupPage.LoadSettings` | instamat/lib/popup.js:8-30 | after a successful read, the toggle shows the resolved `enabled`, the resolved theme's cards are marked, and the status says success in green; after a failed read, only the status changes, to the error text in red |
| `Popup.PopupPage.SelectTheme` | instamat/lib/popup.js:59-85 | after a card click exactly the clicked card is active; its theme is saved, sent only to an instagram.com tab, and named in a green status |
| `Popup.PopupPage.ToggleChanged` | instamat/lib/popup.js:36-54 | the toggle's value is saved, sent only to an instagram.com tab, and reported as on or off in a green status |

## Left out

- `loadKaTeX` (`content.js:2-16`) injects CDN tags and waits for the script. It is network and DOM I/O. The model has only `window.katex`, absent or present, as an `Option`.
- KaTeX's `renderToString` is a foreign library. It is an uninterpreted function that returns markup or throws. With `throwOnError: false` it rarely throws in practice.
- `createPreviewBox`'s markup and styling, and the console log, are presentation only. A box is its anchor element, its `display` and its content string.
- The content is kept as the string assigned to `innerHTML`. The browser's HTML parsing of it is not modelled.
- The 1000 ms interval, the 30 s timeout and the 100 ms paste delay are not modelled as time. They are discrete events, and a delayed paste update is a `TextChanged` event at a later point.
- The `readyState`/`DOMContentLoaded` branching and the MutationObserver subscription (`content.js:125-129`, `140-143`) are event plumbing. The constructor starts the first probe.
- MathPreview.Controller.TextChanged: an element's listener registrations are a set, not a count. By `UpdateIsIdempotent`, several registrations have the same effect as one.
- `chrome.storage.sync`, `chrome.tabs.query` and `chrome.tabs.sendMessage` are browser I/O. A read is passed in as a value, with `None` when it threw. A message to send is returned. A failed query or send is caught in the source and changes nothing, so it is not modelled. A rejected `storage.sync.set`, which would abort a handler, is not modelled.
- Popup.PopupPage.SelectTheme and Popup.PopupPage.ToggleChanged: each popup handler is treated as running to completion, with no other handler interleaved at its `await`s (`popup.js:38`, `42`, `44`, `69`, `73`, `75`). The model therefore does not reach the states where a second click runs between one click's class change and its status update, such as a status naming card A while card B is active.
- The content script never listens for `toggleExtension` or `changeTheme`. The enabled flag and the theme therefore have no effect on the controller.
- The status animation `setTimeout` (`popup.js:114-118`) is UI only.
- Popup.ThemeName: the table is a five-entry map. JavaScript's inherited object keys such as `"toString"` are not modelled.
- Popup.ResolveEnabled: a stored value is modelled as a boolean, because the popup only ever stores the checkbox's `checked`.
- Pattern.ReplaceFrom: it passes `""` as group 1 when the group did not take part in a match, where JavaScript passes `undefined`. Every pattern in this model has a mandatory group, so that case never arises.
- Strings are sequences of characters, not UTF-16 code units. The patterns involve only ASCII, so this makes no difference here.

## Findings

| source | as written | input that shows it | evidently intended | confidence | as-written member | corrected member |
|---|---|---|---|---|---|---|
| instamat/content.js:25 | `/$$([^$]+)$$/g` and `/$([^$]+)$/g` (line 36) use the end-of-input assertion `$`, so they never match and nothing is typeset | `$x$` is returned as `$x$` | literal dollars, `/\$\$([^$]+)\$\$/g` then `/\$([^$]+)\$/g`, as the comments on lines 24 and 35 and the hint on line 61 describe | high; not executed | `LatexRenderer.AsWrittenLeavesInlineMathRaw` | `LatexRenderer.IntendedInlineSpan` |

The controller model keeps the program's renderer as written. Its stated properties,
including the unreachable placeholder, describe the extension as it behaves.
`IntendedRenderLatex`, with `IntendedInlineSpan` and `IntendedDisplaySpan`, is the
corrected renderer.
