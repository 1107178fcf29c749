/**
  The attachment controller of the content script (`initMathPreview`): it finds the
  message box of the host page with a repeating probe, puts a preview box before it,
  wires the box to the message box's text changes, and starts a new probe whenever a
  change to the page leaves it without an attached message box.

  Elements are abstract ids and the document is the set of attached ids. Timers are
  events: a probe tick, a probe's 30-second timeout, a mutation notification, a text
  change (input, keyup, or the delayed run after a paste) and a click on a close button.
*/
module MathPreview {
  import opened Wrappers
  import opened LatexRenderer

  type ElemId = nat
  type BoxId = nat
  type ProbeId = nat

  /** The preview box's `style.display`: as created (left to the stylesheet), `block` or `none`. */
  datatype Display = Unset | Block | Hidden

  /** A preview box: the element it was inserted before, its display and its content region's HTML. */
  datatype PreviewBox = PreviewBox(anchor: ElemId, display: Display, content: string)

  /**
    The "no expression detected" message, `<em style="color: #999;">Matematik ifadesi algılanmadı</em>`.
    It is written as a concatenation of short literals because the verifier cannot show
    `'$' !in Placeholder` within its resource limit for the single long literal.
  */
  const Placeholder: string := "<em style=" + "\"color: #999;\">" + "Matematik " + "ifadesi " + "algılanmadı" + "</em>"

  /**
    The three selector queries in order: the contenteditable textbox, then a textarea
    whose placeholder holds "Mesaj", then one whose placeholder holds "Message".
    The first non-null result is the hit.
  */
  function FirstHit(editable: Option<ElemId>, mesaj: Option<ElemId>, message: Option<ElemId>): (hit: Option<ElemId>)
    ensures editable.Some? ==> hit == editable
    ensures editable.None? && mesaj.Some? ==> hit == mesaj
    ensures editable.None? && mesaj.None? ==> hit == message
    ensures hit.None? <==> editable.None? && mesaj.None? && message.None?
  {
    if editable.Some? then editable else if mesaj.Some? then mesaj else message
  }

  /**
    `textarea.innerText || textarea.value || ''`: the first non-empty of the two,
    else the empty string; `value` is undefined on a contenteditable element.
  */
  function ReadText(innerText: string, value: Option<string>): (text: string)
    ensures innerText != "" ==> text == innerText
    ensures innerText == "" && value.Some? ==> text == value.value
    ensures text == "" <==> innerText == "" && (value.None? || value.value == "")
  {
    if innerText != "" then innerText
    else if value.Some? && value.value != "" then value.value
    else ""
  }

  /** The placeholder message holds no `$`, so it never equals a text that does. */
  lemma PlaceholderHasNoDollar()
    ensures '$' !in Placeholder
  {
  }

  /**
    `updatePreview` on a box that exists. Without a `$` in the text the box is hidden
    and its content kept. With one, the content becomes `renderLatex(text)`, which is
    the text itself, so the "no expression detected" placeholder never appears, and
    the box is shown.
  */
  function UpdatedBox(katex: Option<Typesetter>, box: PreviewBox, text: string): (b: PreviewBox)
    ensures b.anchor == box.anchor
    ensures '$' !in text ==> b.display == Hidden && b.content == box.content
    ensures '$' in text ==> b.display == Block && b.content == text && b.content != Placeholder
  {
    if '$' in text then
      var rendered := RenderLatex(katex, text);
      RenderLatexIsIdentity(katex, text);
      PlaceholderHasNoDollar();
      box.(content := if rendered != "" then rendered else Placeholder, display := Block)
    else
      box.(display := Hidden)
  }

  /**
    Running `updatePreview` twice on the same text leaves the box as running it once,
    so an element with several registrations of the listener behaves as with one.
  */
  lemma UpdateIsIdempotent(katex: Option<Typesetter>, box: PreviewBox, text: string)
    ensures UpdatedBox(katex, UpdatedBox(katex, box, text), text) == UpdatedBox(katex, box, text)
  {
  }

  class Controller {
    /** `window.katex` once the engine has loaded. */
    const katex: Option<Typesetter>
    /** The elements attached to the document, as of the last mutation notification. */
    var doc: set<ElemId>
    /** `currentTextarea`. */
    var current: Option<ElemId>
    /** `previewBox`: the box the closures read, not necessarily the one in the page. */
    var previewBox: Option<BoxId>
    /** Every preview box created so far; boxes dropped from `previewBox` keep their state. */
    var boxes: map<BoxId, PreviewBox>
    var nextBox: BoxId
    /** Probe intervals that have not been cleared. */
    var probes: set<ProbeId>
    /** Probes whose 30-second timeout has not fired yet. */
    var timeouts: set<ProbeId>
    var nextProbe: ProbeId
    /** Elements on which `updatePreview` has been registered. */
    var listeners: set<ElemId>

    ghost predicate Valid()
      reads this
    {
      && probes <= timeouts
      && (forall p :: p in timeouts ==> p < nextProbe)
      && (forall b :: b in boxes ==> b < nextBox)
      && (current.Some? <==> previewBox.Some?)
      && (previewBox.Some? ==> previewBox.value in boxes)
      && (current.Some? ==> current.value in listeners)
    }

    /** SEARCHING: no message box is adopted. */
    ghost predicate Searching()
      reads this
    {
      current.None?
    }

    /** `initMathPreview` after KaTeX has loaded: one probe started, nothing adopted. */
    constructor (katex: Option<Typesetter>, doc: set<ElemId>)
      ensures Valid() && Searching()
      ensures this.katex == katex && this.doc == doc
      ensures previewBox.None? && boxes == map[] && nextBox == 0 && listeners == {}
      ensures probes == {0} && timeouts == {0} && nextProbe == 1
    {
      this.katex := katex;
      this.doc := doc;
      current := None;
      previewBox := None;
      boxes := map[];
      nextBox := 0;
      probes := {0};
      timeouts := {0};
      nextProbe := 1;
      listeners := {};
    }

    /**
      A tick of probe `p`, given the three query results on the current document.
      A hit other than `current` is adopted: `p` alone is cleared, a box is created
      and inserted before the hit only if there is none, and the hit gets listeners.
    */
    method ProbeTick(p: ProbeId, editable: Option<ElemId>, mesaj: Option<ElemId>, message: Option<ElemId>)
      requires Valid() && p in probes
      requires editable.Some? ==> editable.value in doc
      requires mesaj.Some? ==> mesaj.value in doc
      requires message.Some? ==> message.value in doc
      modifies this
      ensures Valid()
      ensures doc == old(doc) && timeouts == old(timeouts) && nextProbe == old(nextProbe)
      ensures var hit := FirstHit(editable, mesaj, message);
        if hit.Some? && hit != old(current) then
          && current == hit
          && probes == old(probes) - {p}
          && listeners == old(listeners) + {hit.value}
          && (if old(previewBox).None? then
                && previewBox == Some(old(nextBox))
                && boxes == old(boxes)[old(nextBox) := PreviewBox(hit.value, Unset, "")]
                && nextBox == old(nextBox) + 1
              else
                previewBox == old(previewBox) && boxes == old(boxes) && nextBox == old(nextBox))
        else
          && current == old(current) && previewBox == old(previewBox) && boxes == old(boxes)
          && nextBox == old(nextBox) && probes == old(probes) && listeners == old(listeners)
    {
      var hit := FirstHit(editable, mesaj, message);
      if hit.Some? && hit != current {
        current := hit;
        probes := probes - {p};
        if previewBox.None? {
          boxes := boxes[nextBox := PreviewBox(hit.value, Unset, "")];
          previewBox := Some(nextBox);
          nextBox := nextBox + 1;
        }
        listeners := listeners + {hit.value};
      }
    }

    /** The 30-second timeout of probe `p`: its interval is cleared, if it was not already. */
    method ProbeTimeout(p: ProbeId)
      requires Valid() && p in timeouts
      modifies this
      ensures Valid()
      ensures p !in probes && p !in timeouts
      ensures probes == old(probes) - {p} && timeouts == old(timeouts) - {p}
      ensures doc == old(doc) && current == old(current) && previewBox == old(previewBox)
      ensures boxes == old(boxes) && nextBox == old(nextBox) && nextProbe == old(nextProbe)
      ensures listeners == old(listeners)
    {
      probes := probes - {p};
      timeouts := timeouts - {p};
    }

    /**
      A mutation notification; `newDoc` is the set of attached elements afterwards.
      If nothing is adopted or the adopted element is detached, both references are
      dropped and exactly one new probe starts; otherwise only the document changes.
    */
    method Mutation(newDoc: set<ElemId>)
      requires Valid()
      modifies this
      ensures Valid()
      ensures doc == newDoc
      ensures boxes == old(boxes) && nextBox == old(nextBox) && listeners == old(listeners)
      ensures if old(current).None? || old(current).value !in newDoc then
          && Searching() && previewBox.None?
          && old(nextProbe) !in old(timeouts)
          && probes == old(probes) + {old(nextProbe)}
          && timeouts == old(timeouts) + {old(nextProbe)}
          && nextProbe == old(nextProbe) + 1
        else
          && current == old(current) && previewBox == old(previewBox)
          && probes == old(probes) && timeouts == old(timeouts) && nextProbe == old(nextProbe)
    {
      doc := newDoc;
      if current.None? || current.value !in newDoc {
        current := None;
        previewBox := None;
        probes := probes + {nextProbe};
        timeouts := timeouts + {nextProbe};
        nextProbe := nextProbe + 1;
      }
    }

    /**
      A text change on element `e` (input, keyup, or the delayed run after a paste).
      Only elements with listeners react. The listener reads `e`'s text but writes to
      the box `previewBox` holds now; when that is null the listener throws before
      changing anything.
    */
    method TextChanged(e: ElemId, innerText: string, value: Option<string>)
      requires Valid()
      modifies this
      ensures Valid()
      ensures doc == old(doc) && current == old(current) && previewBox == old(previewBox)
      ensures nextBox == old(nextBox) && probes == old(probes) && timeouts == old(timeouts)
      ensures nextProbe == old(nextProbe) && listeners == old(listeners)
      ensures if e in listeners && previewBox.Some? then
          var b := previewBox.value;
          boxes == old(boxes)[b := UpdatedBox(katex, old(boxes)[b], ReadText(innerText, value))]
        else
          boxes == old(boxes)
    {
      if e in listeners && previewBox.Some? {
        var b := previewBox.value;
        var text := ReadText(innerText, value);
        boxes := boxes[b := UpdatedBox(katex, boxes[b], text)];
      }
    }

    /**
      A click on the close button of box `clicked`. The handler hides the box that
      `previewBox` holds at click time, which need not be `clicked`; when it is null
      the handler throws and nothing changes.
    */
    method CloseClicked(clicked: BoxId)
      requires Valid() && clicked in boxes
      modifies this
      ensures Valid()
      ensures doc == old(doc) && current == old(current) && previewBox == old(previewBox)
      ensures nextBox == old(nextBox) && probes == old(probes) && timeouts == old(timeouts)
      ensures nextProbe == old(nextProbe) && listeners == old(listeners)
      ensures if previewBox.Some? then
          var b := previewBox.value;
          boxes == old(boxes)[b := old(boxes)[b].(display := Hidden)]
        else
          boxes == old(boxes)
    {
      if previewBox.Some? {
        var b := previewBox.value;
        boxes := boxes[b := boxes[b].(display := Hidden)];
      }
    }
  }
}
