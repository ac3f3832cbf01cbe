/** The popup of the content bundle (popup/popup.js): its settings and
    statistics, the status indicator, the reset and clear actions and the
    recognition of 1C tabs.  The `horizonSettings` entry of
    `chrome.storage.sync` and the `horizonStats` entry of
    `chrome.storage.local` are fields; `confirm`, the active tab's URL and
    the clock are parameters. */
module Popup {
  import opened JsText
  import opened Json
  import opened LastUsed

  /** The URL fragments `is1CUrl` looks for. */
  const UrlPatterns: seq<string> := ["/hs/v8reader/", "clobus.uz", "1cfresh.com", "localhost"]

  /** `is1CUrl`. */
  function Is1CUrl(url: string): (r: bool)
    ensures r <==> (Contains(url, "/hs/v8reader/") || Contains(url, "clobus.uz")
                    || Contains(url, "1cfresh.com") || Contains(url, "localhost"))
  {
    assert UrlPatterns[0] == "/hs/v8reader/" && UrlPatterns[1] == "clobus.uz";
    assert UrlPatterns[2] == "1cfresh.com" && UrlPatterns[3] == "localhost";
    ContainsAny(url, UrlPatterns)
  }

  /** Any URL carrying one of the fragments is a 1C URL. */
  lemma Is1CUrlOfPattern(before: string, after: string, i: int)
    requires 0 <= i < |UrlPatterns|
    ensures Is1CUrl(before + UrlPatterns[i] + after)
  {
    var url := before + UrlPatterns[i] + after;
    assert url[|before|..|before| + |UrlPatterns[i]|] == UrlPatterns[i];
    assert OccursAt(url, UrlPatterns[i], |before|);
  }

  /** The settings a fresh popup starts from and `resetSettings` restores. */
  const DefaultSettings: Json := JObj(map[
    "enabled" := JBool(true), "theme" := JStr("light"), "animations" := JBool(true),
    "accentColor" := JStr("#4318FF"), "compactMode" := JBool(false),
    "autoDetect" := JBool(true), "customCSS" := JStr(""), "performance" := JStr("balanced")])

  /** The statistics a fresh popup starts from and `clearStats` restores. */
  const DefaultStats: Json := JObj(map[
    "transformedPages" := JNum(0), "lastUsed" := JNull, "totalSessions" := JNum(0)])

  /** `if (stored) current = { ...current, ...stored }`: how a stored tree is
      loaded over the one in memory.  A missing entry (`undefined`) or any
      other falsy value changes nothing. */
  function SpreadStored(current: Json, stored: Json): (r: Json)
    ensures !Truthy(stored) ==> r == current
    ensures Truthy(stored) ==> r.JObj?
    ensures Truthy(stored) ==> r.fields.Keys == OwnProperties(current).Keys + OwnProperties(stored).Keys
    ensures Truthy(stored) ==>
      forall k :: k in OwnProperties(stored) ==> r.fields[k] == OwnProperties(stored)[k]
    ensures Truthy(stored) ==>
      forall k :: k in OwnProperties(current) && k !in OwnProperties(stored) ==>
        r.fields[k] == OwnProperties(current)[k]
  {
    if Truthy(stored) then Spread(current, stored) else current
  }

  /** Loading the same stored tree twice is loading it once. */
  lemma SpreadStoredIdempotent(current: Json, stored: Json)
    ensures SpreadStored(SpreadStored(current, stored), stored) == SpreadStored(current, stored)
  {
    if Truthy(stored) {
      var f, g := OwnProperties(current), OwnProperties(stored);
      assert (f + g) + g == f + g;
    }
  }

  /** Whatever is stored, every default setting is still present after the
      load, and keeps its default unless the stored object names it. */
  lemma LoadKeepsDefaults(stored: Json)
    ensures var r := SpreadStored(DefaultSettings, stored);
      && r.JObj?
      && DefaultSettings.fields.Keys <= r.fields.Keys
      && (forall k :: k in DefaultSettings.fields && k !in OwnProperties(stored) ==>
            r.fields[k] == DefaultSettings.fields[k])
  {
  }

  /** The status indicator: its class name, icon and text. */
  datatype Indicator = Indicator(className: string, icon: string, text: string)

  /** `updateStatusIndicator`, for the current `settings.enabled`. */
  function StatusIndicator(enabled: Json): (r: Indicator)
    ensures r == CreatedIndicator(enabled)
    ensures r.className == "status-indicator active" <==> Truthy(enabled)
  {
    if Truthy(enabled) then Indicator("status-indicator active", "✅", "Horizon UI активен")
    else Indicator("status-indicator inactive", "❌", "Horizon UI отключен")
  }

  /** `createStatusIndicator`: the same three parts, built by interpolation. */
  function CreatedIndicator(enabled: Json): (r: Indicator)
  {
    Indicator("status-indicator " + (if Truthy(enabled) then "active" else "inactive"),
              if Truthy(enabled) then "✅" else "❌",
              if Truthy(enabled) then "Horizon UI активен" else "Horizon UI отключен")
  }

  /** The indicator depends on `settings.enabled` only through its
      truthiness, and the two states always look different. */
  lemma IndicatorRule(a: Json, b: Json)
    ensures StatusIndicator(a) == StatusIndicator(b) <==> Truthy(a) == Truthy(b)
    ensures CreatedIndicator(a) == StatusIndicator(a)
  {
    if Truthy(a) != Truthy(b) {
      assert StatusIndicator(a).icon != StatusIndicator(b).icon;
    }
    assert "status-indicator " + "active" == "status-indicator active";
    assert "status-indicator " + "inactive" == "status-indicator inactive";
  }

  /** The controls whose `change` or `click` handler writes one setting and
      saves: the control's id (the class `color-option` for the palette) and
      the setting it writes. */
  const Controls: seq<(string, string)> := [
    ("themeSelect", "theme"), ("enableAnimations", "animations"),
    ("compactMode", "compactMode"), ("autoDetect", "autoDetect"),
    ("performanceSelect", "performance"), ("color-option", "accentColor")]

  /** The texts a freshly cleared statistics section shows are those the
      cleared statistics themselves render to. */
  lemma ClearedStatsRender(stamp: Option<int>, now: int, dateText: string)
    ensures Member(DefaultStats, "transformedPages") == JNum(0) && NatToString(0) == "0"
    ensures Member(DefaultStats, "totalSessions") == JNum(0)
    ensures FormatLastUsed(Member(DefaultStats, "lastUsed"), stamp, now, dateText) == "Никогда"
  {
    assert NatToString(0) == [DigitChar(0)];
  }

  /** Just after `checkCurrentTab` records a use, the popup says "just now". */
  lemma JustRecorded(iso: string, stamp: Option<int>, now: int, dateText: string)
    requires iso != "" && stamp.Some? && 0 <= now - stamp.value < Minute
    ensures FormatLastUsed(JStr(iso), stamp, now, dateText) == "Только что"
  {
  }

  class HorizonPopup {
    var settings: Json
    var stats: Json
    /** The `horizonSettings` entry of `chrome.storage.sync`. */
    var syncedSettings: Json
    /** The `horizonStats` entry of `chrome.storage.local`. */
    var storedStats: Json
    var indicator: Indicator
    /** The texts of the two counters and of the last-use line. */
    var transformedText: string
    var sessionText: string
    var lastUsedText: string
    /** The notifications shown so far: message and type. */
    var notices: seq<(string, string)>
    /** Whether `location.reload()` was called. */
    var reloaded: bool
    /** The `--accent-color` property of the document element and the
        `dark-theme` and `compact-mode` classes of the body. */
    var accentVar: Option<string>
    var darkBody: bool
    var compactBody: bool

    predicate Valid()
      reads this
    {
      settings.JObj? && stats.JObj?
    }

    /** `new HorizonPopup()`, with the storage entries the popup will find;
        `init` follows. */
    constructor(synced: Json, local: Json)
      ensures Valid()
      ensures settings == DefaultSettings && stats == DefaultStats
      ensures syncedSettings == synced && storedStats == local
      ensures notices == [] && !reloaded
      ensures accentVar.None? && !darkBody && !compactBody
    {
      settings := DefaultSettings;
      stats := DefaultStats;
      syncedSettings := synced;
      storedStats := local;
      indicator := StatusIndicator(JBool(true));
      transformedText, sessionText, lastUsedText := "", "", "";
      notices := [];
      reloaded := false;
      accentVar, darkBody, compactBody := None, false, false;
    }

    /** `init`: the stored entries are loaded over the ones in memory and the
        indicator and last-use line are drawn.  `stamp` and `now` are the
        time values `formatLastUsed` reads. */
    method Init(stamp: Option<int>, now: int, dateText: string)
      requires Valid()
      modifies this
      ensures Valid()
      ensures settings == SpreadStored(old(settings), syncedSettings)
      ensures stats == SpreadStored(old(stats), storedStats)
      ensures indicator == StatusIndicator(Member(settings, "enabled"))
      ensures lastUsedText == FormatLastUsed(Member(stats, "lastUsed"), stamp, now, dateText)
      ensures syncedSettings == old(syncedSettings) && storedStats == old(storedStats)
      ensures notices == old(notices) && reloaded == old(reloaded)
      ensures transformedText == old(transformedText) && sessionText == old(sessionText)
      ensures accentVar == (if CssText(Member(settings, "accentColor")).Some? then CssText(Member(settings, "accentColor")) else old(accentVar))
      ensures darkBody == (old(darkBody) || Member(settings, "theme") == JStr("dark"))
      ensures compactBody == (old(compactBody) || Truthy(Member(settings, "compactMode")))
    {
      LoadSettings();
      LoadStats();
      IndicatorRule(Member(settings, "enabled"), Member(settings, "enabled"));
      indicator := CreatedIndicator(Member(settings, "enabled"));
      lastUsedText := FormatLastUsed(Member(stats, "lastUsed"), stamp, now, dateText);
      ApplySettingsToUI();
    }

    /** `applySettingsToUI`: the accent colour becomes the `--accent-color`
        property (where `CssText` gives its text), and the dark-theme and
        compact-mode classes are added, never removed, as the settings ask. */
    method ApplySettingsToUI()
      modifies this
      ensures accentVar == (if CssText(Member(settings, "accentColor")).Some? then CssText(Member(settings, "accentColor")) else old(accentVar))
      ensures darkBody == (old(darkBody) || Member(settings, "theme") == JStr("dark"))
      ensures compactBody == (old(compactBody) || Truthy(Member(settings, "compactMode")))
      ensures settings == old(settings) && stats == old(stats)
      ensures syncedSettings == old(syncedSettings) && storedStats == old(storedStats)
      ensures indicator == old(indicator) && lastUsedText == old(lastUsedText)
      ensures notices == old(notices) && reloaded == old(reloaded)
      ensures transformedText == old(transformedText) && sessionText == old(sessionText)
    {
      var accent := CssText(Member(settings, "accentColor"));
      if accent.Some? {
        accentVar := accent;
      }
      if Member(settings, "theme") == JStr("dark") {
        darkBody := true;
      }
      if Truthy(Member(settings, "compactMode")) {
        compactBody := true;
      }
    }

    /** `loadSettings`. */
    method LoadSettings()
      requires Valid()
      modifies this
      ensures Valid()
      ensures settings == SpreadStored(old(settings), syncedSettings)
      ensures stats == old(stats) && syncedSettings == old(syncedSettings) && storedStats == old(storedStats)
      ensures indicator == old(indicator) && lastUsedText == old(lastUsedText)
      ensures notices == old(notices) && reloaded == old(reloaded)
      ensures transformedText == old(transformedText) && sessionText == old(sessionText)
      ensures accentVar == old(accentVar) && darkBody == old(darkBody) && compactBody == old(compactBody)
    {
      settings := SpreadStored(settings, syncedSettings);
    }

    /** `loadStats`. */
    method LoadStats()
      requires Valid()
      modifies this
      ensures Valid()
      ensures stats == SpreadStored(old(stats), storedStats)
      ensures settings == old(settings) && syncedSettings == old(syncedSettings) && storedStats == old(storedStats)
      ensures indicator == old(indicator) && lastUsedText == old(lastUsedText)
      ensures notices == old(notices) && reloaded == old(reloaded)
      ensures transformedText == old(transformedText) && sessionText == old(sessionText)
      ensures accentVar == old(accentVar) && darkBody == old(darkBody) && compactBody == old(compactBody)
    {
      stats := SpreadStored(stats, storedStats);
    }

    /** `saveSettings`: the settings are stored and the user is told. */
    method SaveSettings()
      modifies this
      ensures syncedSettings == old(settings)
      ensures notices == old(notices) + [("Настройки сохранены!", "success")]
      ensures settings == old(settings) && stats == old(stats) && storedStats == old(storedStats)
      ensures indicator == old(indicator) && reloaded == old(reloaded)
      ensures transformedText == old(transformedText) && sessionText == old(sessionText)
      ensures lastUsedText == old(lastUsedText)
      ensures accentVar == old(accentVar) && darkBody == old(darkBody) && compactBody == old(compactBody)
    {
      syncedSettings := settings;
      notices := notices + [("Настройки сохранены!", "success")];
    }

    /** `saveStats`. */
    method SaveStats()
      modifies this
      ensures storedStats == old(stats)
      ensures settings == old(settings) && stats == old(stats) && syncedSettings == old(syncedSettings)
      ensures indicator == old(indicator) && notices == old(notices) && reloaded == old(reloaded)
      ensures transformedText == old(transformedText) && sessionText == old(sessionText)
      ensures lastUsedText == old(lastUsedText)
      ensures accentVar == old(accentVar) && darkBody == old(darkBody) && compactBody == old(compactBody)
    {
      storedStats := stats;
    }

    /** `updateStatusIndicator`. */
    method UpdateStatusIndicator()
      modifies this
      ensures indicator == StatusIndicator(Member(settings, "enabled"))
      ensures settings == old(settings) && stats == old(stats)
      ensures syncedSettings == old(syncedSettings) && storedStats == old(storedStats)
      ensures notices == old(notices) && reloaded == old(reloaded)
      ensures lastUsedText == old(lastUsedText)
      ensures accentVar == old(accentVar) && darkBody == old(darkBody) && compactBody == old(compactBody)
      ensures transformedText == old(transformedText) && sessionText == old(sessionText)
    {
      if Truthy(Member(settings, "enabled")) {
        indicator := Indicator("status-indicator active", "✅", "Horizon UI активен");
      } else {
        indicator := Indicator("status-indicator inactive", "❌", "Horizon UI отключен");
      }
    }

    /** The `change` handler of the main switch: the setting, the indicator
        and the stored copy all follow the switch. */
    method OnEnableChange(checked: bool)
      requires Valid()
      modifies this
      ensures Valid()
      ensures settings == JObj(old(settings).fields["enabled" := JBool(checked)])
      ensures indicator == StatusIndicator(JBool(checked))
      ensures syncedSettings == settings
      ensures notices == old(notices) + [("Настройки сохранены!", "success")]
      ensures stats == old(stats) && storedStats == old(storedStats) && reloaded == old(reloaded)
      ensures accentVar == old(accentVar) && darkBody == old(darkBody) && compactBody == old(compactBody)
      ensures transformedText == old(transformedText) && sessionText == old(sessionText)
      ensures lastUsedText == old(lastUsedText)
    {
      settings := JObj(settings.fields["enabled" := JBool(checked)]);
      UpdateStatusIndicator();
      SaveSettings();
    }

    /** The handlers of the other controls: the control's setting takes the
        new value and the settings are saved; an id without a handler
        changes nothing. */
    method OnControlChange(id: string, value: Json)
      requires Valid()
      modifies this
      ensures Valid()
      ensures ExactLookup(Controls, id).None? ==>
        settings == old(settings) && syncedSettings == old(syncedSettings) && notices == old(notices)
      ensures ExactLookup(Controls, id).Some? ==>
        settings == JObj(old(settings).fields[ExactLookup(Controls, id).value := value])
        && syncedSettings == settings
        && notices == old(notices) + [("Настройки сохранены!", "success")]
      ensures stats == old(stats) && storedStats == old(storedStats)
      ensures indicator == old(indicator) && reloaded == old(reloaded)
      ensures accentVar == old(accentVar) && darkBody == old(darkBody) && compactBody == old(compactBody)
      ensures transformedText == old(transformedText) && sessionText == old(sessionText)
      ensures lastUsedText == old(lastUsedText)
    {
      var key := ExactLookup(Controls, id);
      if key.Some? {
        settings := JObj(settings.fields[key.value := value]);
        SaveSettings();
      }
    }

    /** `resetSettings`: once confirmed, exactly the eight defaults are put
        back, stored, and the popup reloads. */
    method ResetSettings(confirmed: bool)
      requires Valid()
      modifies this
      ensures Valid()
      ensures settings == if confirmed then DefaultSettings else old(settings)
      ensures confirmed ==> (syncedSettings == DefaultSettings && reloaded
        && notices == old(notices) + [("Настройки сохранены!", "success")])
      ensures !confirmed ==> (syncedSettings == old(syncedSettings) && reloaded == old(reloaded)
        && notices == old(notices))
      ensures stats == old(stats) && storedStats == old(storedStats) && indicator == old(indicator)
      ensures accentVar == old(accentVar) && darkBody == old(darkBody) && compactBody == old(compactBody)
      ensures transformedText == old(transformedText) && sessionText == old(sessionText)
      ensures lastUsedText == old(lastUsedText)
    {
      if confirmed {
        settings := DefaultSettings;
        SaveSettings();
        reloaded := true;
      }
    }

    /** `clearStats`: once confirmed, both counters go back to 0 and the last
        use to `null`, stored and shown as such. */
    method ClearStats(confirmed: bool)
      requires Valid()
      modifies this
      ensures Valid()
      ensures stats == if confirmed then DefaultStats else old(stats)
      ensures confirmed ==> (storedStats == DefaultStats
        && transformedText == "0" && sessionText == "0" && lastUsedText == "Никогда"
        && notices == old(notices) + [("Статистика очищена!", "success")])
      ensures !confirmed ==> (storedStats == old(storedStats)
        && transformedText == old(transformedText) && sessionText == old(sessionText)
        && lastUsedText == old(lastUsedText) && notices == old(notices))
      ensures settings == old(settings) && syncedSettings == old(syncedSettings)
      ensures indicator == old(indicator) && reloaded == old(reloaded)
      ensures accentVar == old(accentVar) && darkBody == old(darkBody) && compactBody == old(compactBody)
    {
      if confirmed {
        stats := DefaultStats;
        SaveStats();
        transformedText, sessionText, lastUsedText := "0", "0", "Никогда";
        notices := notices + [("Статистика очищена!", "success")];
      }
    }

    /** `checkCurrentTab`, given the active tab's URL (`None` when there is no
        tab, or when it has no URL and `includes` throws into the handler).
        On a 1C tab the use is recorded with the ISO time `iso`, stored, and
        the last-use line redrawn. */
    method CheckCurrentTab(url: Option<string>, iso: string, stamp: Option<int>, now: int, dateText: string)
      requires Valid()
      modifies this
      ensures Valid()
      ensures url.Some? && Is1CUrl(url.value) ==>
        stats == JObj(old(stats).fields["lastUsed" := JStr(iso)])
        && storedStats == stats
        && lastUsedText == FormatLastUsed(JStr(iso), stamp, now, dateText)
      ensures !(url.Some? && Is1CUrl(url.value)) ==>
        stats == old(stats) && storedStats == old(storedStats) && lastUsedText == old(lastUsedText)
      ensures settings == old(settings) && syncedSettings == old(syncedSettings)
      ensures indicator == old(indicator) && notices == old(notices) && reloaded == old(reloaded)
      ensures accentVar == old(accentVar) && darkBody == old(darkBody) && compactBody == old(compactBody)
      ensures transformedText == old(transformedText) && sessionText == old(sessionText)
    {
      if url.Some? && Is1CUrl(url.value) {
        stats := JObj(stats.fields["lastUsed" := JStr(iso)]);
        SaveStats();
        lastUsedText := FormatLastUsed(JStr(iso), stamp, now, dateText);
      }
    }
  }
}
