/**
  The settings popup: the theme-name table, the defaults applied to stored settings,
  the theme cards' `active` class, the status line, and the guard that only sends a
  message to an active tab on instagram.com. Browser storage and tab messaging are
  parameters and results: a stored read arrives as a value, a message to send is
  returned.
*/
module Popup {
  import opened Wrappers

  const Green: string := "#4CAF50"
  const Red: string := "#f44336"

  const ThemeNames: map<string, string> := map[
    "silver" := "Gümüş",
    "ocean" := "Okyanus",
    "forest" := "Orman",
    "sky" := "Gökyüzü",
    "night" := "Gece"
  ]

  /** `getThemeName`: `names[theme] || theme`. */
  function ThemeName(theme: string): (name: string)
    ensures theme == "silver" ==> name == "Gümüş"
    ensures theme == "ocean" ==> name == "Okyanus"
    ensures theme == "forest" ==> name == "Orman"
    ensures theme == "sky" ==> name == "Gökyüzü"
    ensures theme == "night" ==> name == "Gece"
    ensures theme !in {"silver", "ocean", "forest", "sky", "night"} ==> name == theme
  {
    var looked := if theme in ThemeNames then ThemeNames[theme] else "";
    if looked != "" then looked else theme
  }

  /** `result.enabled !== undefined ? result.enabled : true`; `None` is `undefined`. */
  function ResolveEnabled(stored: Option<bool>): (enabled: bool)
    ensures stored.Some? ==> enabled == stored.value
    ensures stored.None? ==> enabled
  {
    if stored.Some? then stored.value else true
  }

  /** `result.theme || 'silver'`: a missing or empty stored theme falls back to silver. */
  function ResolveTheme(stored: Option<string>): (theme: string)
    ensures theme != ""
    ensures stored.Some? && stored.value != "" ==> theme == stored.value
    ensures stored.None? || stored.value == "" ==> theme == "silver"
  {
    if stored.Some? && stored.value != "" then stored.value else "silver"
  }

  /** `sub` occurs in `s` starting at position `k`. */
  ghost predicate OccursAt(s: string, sub: string, k: nat)
  {
    k + |sub| <= |s| && s[k..k + |sub|] == sub
  }

  /** `s.includes(sub)`: `sub` occurs at some position of `s`. */
  predicate Contains(s: string, sub: string)
    ensures Contains(s, sub) <==> exists k: nat :: OccursAt(s, sub, k)
    decreases |s|
  {
    if |sub| > |s| then
      assert forall k: nat :: !OccursAt(s, sub, k);
      false
    else if s[..|sub|] == sub then
      assert OccursAt(s, sub, 0);
      true
    else
      var r := Contains(s[1..], sub);
      assert r ==> exists k: nat :: OccursAt(s, sub, k) by {
        if r {
          var k: nat :| OccursAt(s[1..], sub, k);
          assert s[k + 1..k + 1 + |sub|] == s[1..][k..k + |sub|];
          assert OccursAt(s, sub, k + 1);
        }
      }
      assert (exists k: nat :: OccursAt(s, sub, k)) ==> r by {
        if exists k: nat :: OccursAt(s, sub, k) {
          var k: nat :| OccursAt(s, sub, k);
          assert k != 0;
          assert s[1..][k - 1..k - 1 + |sub|] == s[k..k + |sub|];
          assert OccursAt(s[1..], sub, k - 1);
        }
      }
      r
  }

  /** The active tab of the current window, as `chrome.tabs.query` reports it. */
  datatype Tab = Tab(id: int, url: Option<string>)

  /** `tab && tab.url && tab.url.includes('instagram.com')`. */
  function ShouldNotify(tab: Option<Tab>): (send: bool)
    ensures send <==> tab.Some? && tab.value.url.Some? && Contains(tab.value.url.value, "instagram.com")
  {
    tab.Some? && tab.value.url.Some? && tab.value.url.value != "" && Contains(tab.value.url.value, "instagram.com")
  }

  datatype Message = ToggleExtension(enabled: bool) | ChangeTheme(theme: string)
  datatype Outgoing = Outgoing(tabId: int, message: Message)

  /** The `chrome.tabs.sendMessage` call a handler makes, if any. */
  function Notification(tab: Option<Tab>, message: Message): (out: Option<Outgoing>)
    ensures out.Some? <==> ShouldNotify(tab)
    ensures out.Some? ==> out.value == Outgoing(tab.value.id, message)
  {
    if ShouldNotify(tab) then Some(Outgoing(tab.value.id, message)) else None
  }

  /** The indicator's background after `updateStatus(_, kind)`. */
  function IndicatorColour(current: string, kind: string): (colour: string)
    ensures kind == "success" ==> colour == Green
    ensures kind == "error" ==> colour == Red
    ensures kind != "success" && kind != "error" ==> colour == current
  {
    if kind == "success" then Green
    else if kind == "error" then Red
    else current
  }

  /** A `.theme-card`: its `data-theme` and whether its class list holds `active`. */
  datatype ThemeCard = ThemeCard(theme: string, active: bool)

  /** `chrome.storage.sync.get(['enabled', 'theme'])`; `None` fields are missing keys. */
  datatype StoredSettings = StoredSettings(enabled: Option<bool>, theme: Option<string>)

  /** The popup document's elements that the script writes. */
  class PopupPage {
    /** `#enableExtension`'s `checked`. */
    var enabledChecked: bool
    /** The `.theme-card` elements, in document order. */
    const cards: array<ThemeCard>
    /** `#statusText`'s `textContent`. */
    var statusText: string
    /** `.status-indicator`'s `style.background`. */
    var indicator: string

    constructor (cards: array<ThemeCard>, enabledChecked: bool, statusText: string, indicator: string)
      ensures this.cards == cards && this.enabledChecked == enabledChecked
      ensures this.statusText == statusText && this.indicator == indicator
    {
      this.cards := cards;
      this.enabledChecked := enabledChecked;
      this.statusText := statusText;
      this.indicator := indicator;
    }

    /** `updateStatus(message, kind)`: the text is set; the colour follows the kind. */
    method UpdateStatus(message: string, kind: string)
      modifies this
      ensures statusText == message && indicator == IndicatorColour(old(indicator), kind)
      ensures enabledChecked == old(enabledChecked)
    {
      statusText := message;
      if kind == "success" {
        indicator := Green;
      } else if kind == "error" {
        indicator := Red;
      }
    }

    /** Adds `active` to every card of `theme` and removes it from none. */
    method MarkActive(theme: string)
      modifies cards
      ensures forall i :: 0 <= i < cards.Length ==>
        cards[i].theme == old(cards[i].theme) && cards[i].active == (old(cards[i].active) || cards[i].theme == theme)
    {
      var i := 0;
      while i < cards.Length
        invariant 0 <= i <= cards.Length
        invariant forall j :: 0 <= j < i ==>
          cards[j].theme == old(cards[j].theme) && cards[j].active == (old(cards[j].active) || cards[j].theme == theme)
        invariant forall j :: i <= j < cards.Length ==> cards[j] == old(cards[j])
      {
        if cards[i].theme == theme {
          cards[i] := cards[i].(active := true);
        }
        i := i + 1;
      }
    }

    /**
      `loadSettings` given what the storage read produced (`None` when it threw):
      the toggle and the cards reflect the settings with their defaults applied,
      and the status reports success; on a failed read only the status changes.
    */
    method LoadSettings(stored: Option<StoredSettings>)
      modifies this, cards
      ensures stored.None? ==>
        && enabledChecked == old(enabledChecked) && cards[..] == old(cards[..])
        && statusText == "Hata oluştu" && indicator == Red
      ensures stored.Some? ==>
        && enabledChecked == ResolveEnabled(stored.value.enabled)
        && statusText == "Ayarlar yüklendi" && indicator == Green
        && forall i :: 0 <= i < cards.Length ==>
             && cards[i].theme == old(cards[i].theme)
             && cards[i].active == (old(cards[i].active) || cards[i].theme == ResolveTheme(stored.value.theme))
    {
      if stored.None? {
        UpdateStatus("Hata oluştu", "error");
      } else {
        enabledChecked := ResolveEnabled(stored.value.enabled);
        MarkActive(ResolveTheme(stored.value.theme));
        UpdateStatus("Ayarlar yüklendi", "success");
      }
    }

    /**
      A click on card `k`: afterwards exactly card `k` is active. Its theme is saved,
      sent to the tab when that is an instagram.com tab, and named in the status.
    */
    method SelectTheme(k: nat, tab: Option<Tab>) returns (saved: string, sent: Option<Outgoing>)
      requires k < cards.Length
      modifies this, cards
      ensures forall i :: 0 <= i < cards.Length ==> cards[i].theme == old(cards[i].theme) && (cards[i].active <==> i == k)
      ensures saved == old(cards[k].theme)
      ensures sent == Notification(tab, ChangeTheme(saved))
      ensures statusText == ThemeName(saved) + " teması seçildi" && indicator == Green
      ensures enabledChecked == old(enabledChecked)
    {
      saved := cards[k].theme;
      var i := 0;
      while i < cards.Length
        invariant 0 <= i <= cards.Length
        invariant forall j :: 0 <= j < i ==> cards[j] == old(cards[j]).(active := false)
        invariant forall j :: i <= j < cards.Length ==> cards[j] == old(cards[j])
        modifies cards  // the loop leaves the page's other fields alone
      {
        cards[i] := cards[i].(active := false);
        i := i + 1;
      }
      cards[k] := cards[k].(active := true);
      sent := Notification(tab, ChangeTheme(saved));
      UpdateStatus(ThemeName(saved) + " teması seçildi", "success");
    }

    /**
      A change of the toggle, after the browser has set `enabledChecked`: the value is
      saved, sent to the tab when that is an instagram.com tab, and the status says
      whether the extension is on.
    */
    method ToggleChanged(tab: Option<Tab>) returns (saved: bool, sent: Option<Outgoing>)
      modifies this
      ensures saved == enabledChecked == old(enabledChecked)
      ensures sent == Notification(tab, ToggleExtension(saved))
      ensures statusText == (if saved then "Eklenti aktif" else "Eklenti kapalı") && indicator == Green
    {
      saved := enabledChecked;
      sent := Notification(tab, ToggleExtension(saved));
      UpdateStatus(if saved then "Eklenti aktif" else "Eklenti kapalı", "success");
    }
  }
}
