/** The popup of the packaged extension (horizon-1c-extension/popup/popup.js):
    its settings tree with the nested `accessibility` group, the statistics,
    `updateUI`, the handlers, reset and import, the score of the performance
    mode and the recognition of 1C tabs.  The storage entries are fields;
    `confirm`, the parsed import file, the active tab's URL and the clock are
    parameters. */
module ExtPopup {
  import opened JsText
  import opened Json
  import opened LastUsed
  import Popup
  import Background
  import Performance
  import Welcome

  /** `is1CUrl`: the six fragments are those of the background worker's tab
      test. */
  function Is1CUrl(url: string): (r: bool)
    ensures r <==> (Contains(url, "/hs/v8reader/") || Contains(url, "clobus.uz")
                    || Contains(url, "1cfresh.com") || Contains(url, "/ws/")
                    || Contains(url, "/ru_RU/") || Contains(url, "/en_US/"))
  {
    var p := Background.TabPatterns;
    assert p[0] == "/hs/v8reader/" && p[1] == "clobus.uz" && p[2] == "1cfresh.com";
    assert p[3] == "/ws/" && p[4] == "/ru_RU/" && p[5] == "/en_US/";
    ContainsAny(url, p)
  }

  /** On every URL this popup agrees with the background worker. */
  lemma AgreesWithBackground(url: string)
    ensures Is1CUrl(url) <==> Background.Is1CTab(Some(url))
  {
    if url == "" {
      NotContainsChar(url, "/hs/v8reader/", 0);
      NotContainsChar(url, "clobus.uz", 0);
      NotContainsChar(url, "1cfresh.com", 0);
      NotContainsChar(url, "/ws/", 0);
      NotContainsChar(url, "/ru_RU/", 0);
      NotContainsChar(url, "/en_US/", 0);
    }
  }

  /** The two popups disagree on two fragments: only this one knows `/ws/`,
      only the other one knows `localhost`. */
  lemma PopupsDisagree()
    ensures Is1CUrl("/ws/") && !Popup.Is1CUrl("/ws/")
    ensures !Is1CUrl("localhost") && Popup.Is1CUrl("localhost")
  {
    ContainsItself("/ws/");
    ContainsItself("localhost");
    NotContainsChar("/ws/", "/hs/v8reader/", 1);
    NotContainsChar("/ws/", "clobus.uz", 0);
    NotContainsChar("/ws/", "1cfresh.com", 0);
    NotContainsChar("/ws/", "localhost", 0);
    NotContainsChar("localhost", "/hs/v8reader/", 0);
    NotContainsChar("localhost", "clobus.uz", 8);
    NotContainsChar("localhost", "1cfresh.com", 0);
    NotContainsChar("localhost", "/ws/", 0);
    NotContainsChar("localhost", "/ru_RU/", 0);
    NotContainsChar("localhost", "/en_US/", 0);
  }

  /** The `scores` table of `getPerformanceScore`. */
  const Scores: map<string, string> := map["high" := "95%", "balanced" := "85%", "battery" := "75%"]

  /** `getPerformanceScore`: `scores[performance] || '85%'`, the fallback
      being the balanced score. */
  function PerformanceScore(performance: Json): (r: string)
    ensures r in {"95%", "85%", "75%"}
  {
    LookupOr(Scores, performance, "balanced")
  }

  /** High scores 95%, battery 75%, and every other value 85%; an
      unrecognised mode scores like balanced, as the content script's
      performance manager treats it. */
  lemma PerformanceScoreTable(performance: Json)
    ensures PerformanceScore(performance) == "95%" <==> KeyText(performance) == Some("high")
    ensures PerformanceScore(performance) == "75%" <==> KeyText(performance) == Some("battery")
    ensures performance.JStr? && Performance.TableFor(performance.s).None? ==>
      PerformanceScore(performance) == PerformanceScore(JStr("balanced"))
  {
    LookupOrChoice(Scores, performance, "balanced");
    var k := KeyText(performance);
    if k.Some? && k.value in Scores {
      assert k.value == "high" || k.value == "balanced" || k.value == "battery";
    }
  }

  const AccessibilityDefaults: Json := JObj(map[
    "highContrast" := JBool(false), "reducedMotion" := JBool(false), "fontSize" := JStr("normal")])

  /** The settings a fresh popup starts from and `resetSettings` restores. */
  const DefaultSettings: Json := JObj(map[
    "enabled" := JBool(true), "theme" := JStr("light"), "animations" := JBool(true),
    "accentColor" := JStr("#4318FF"), "compactMode" := JBool(false),
    "autoDetect" := JBool(true), "performance" := JStr("balanced"),
    "accessibility" := AccessibilityDefaults])

  const DefaultStats: Json := JObj(map[
    "transformedPages" := JNum(0), "totalSessions" := JNum(0), "lastUsed" := JNull])

  /** Compared with the other popup, the defaults drop `customCSS` and add
      the `accessibility` group; the shared settings and the statistics
      start out the same. */
  lemma DefaultsCompared()
    ensures DefaultSettings.fields.Keys == Popup.DefaultSettings.fields.Keys - {"customCSS"} + {"accessibility"}
    ensures forall k :: k in DefaultSettings.fields && k in Popup.DefaultSettings.fields ==>
      DefaultSettings.fields[k] == Popup.DefaultSettings.fields[k]
    ensures DefaultStats == Popup.DefaultStats
  {
  }

  /** `{ ...settings, ...imported }` is shallow: an `accessibility` value in
      the new tree replaces the current group as a whole. */
  lemma AccessibilityReplaced(current: Json, imported: Json)
    requires imported.JObj? && "accessibility" in imported.fields
    ensures Member(Spread(current, imported), "accessibility") == imported.fields["accessibility"]
    ensures Member(Popup.SpreadStored(current, imported), "accessibility") == imported.fields["accessibility"]
  {
  }

  /** So a tree naming only one accessibility setting loses the other two,
      whatever the current group held (the defaults among them); and a tree
      whose group is `null` leaves a group that `updateUI` cannot read. */
  lemma PartialAccessibility(current: Json, v: Json)
    ensures var r := Spread(current, JObj(map["accessibility" := JObj(map["highContrast" := v])]));
      && Member(Member(r, "accessibility"), "highContrast") == v
      && Member(Member(r, "accessibility"), "fontSize") == JUndefined
      && Member(Member(r, "accessibility"), "reducedMotion") == JUndefined
      && (forall k :: k in OwnProperties(current) && k != "accessibility" ==>
            Member(r, k) == OwnProperties(current)[k])
    ensures Nullish(Member(Spread(current, JObj(map["accessibility" := JNull])), "accessibility"))
  {
    var a := JObj(map["highContrast" := v]);
    AccessibilityReplaced(current, JObj(map["accessibility" := a]));
    AccessibilityReplaced(current, JObj(map["accessibility" := JNull]));
  }

  /** The detail line under the status indicator. */
  function StatusDetails(enabled: Json): (r: string)
  {
    if Truthy(enabled) then "Интерфейс трансформирован" else "Нажмите для активации"
  }

  /** The status part of `updateUI` shows the other popup's indicator, and it
      changes, with its detail line, exactly when the truthiness of
      `settings.enabled` does. */
  lemma StatusRule(a: Json, b: Json)
    ensures (Popup.StatusIndicator(a), StatusDetails(a)) == (Popup.StatusIndicator(b), StatusDetails(b))
      <==> Truthy(a) == Truthy(b)
  {
    Popup.IndicatorRule(a, b);
  }

  /** The text a `textContent` assignment shows for a value the stats can
      hold: the number's digits, "" for `null` and the string conversion of
      the other primitives; `None` for an object or an array, whose
      conversion is not modelled. */
  function ContentText(v: Json): (r: Option<string>)
    ensures r.None? <==> v.JObj? || v.JArr?
    ensures v.JNull? ==> r == Some("")
    ensures v.JStr? ==> r == Some(v.s)
  {
    match v
    case JUndefined => Some("undefined")
    case JNull => Some("")
    case JBool(b) => Some(if b then "true" else "false")
    case JNum(n) => Some(if n < 0 then "-" + NatToString(-n) else NatToString(n))
    case JStr(s) => Some(s)
    case _ => None
  }

  /** A counter's text reads back as the count it shows. */
  lemma CounterReadsBack(n: nat)
    ensures ContentText(JNum(n)).Some?
    ensures ToNumber(JStr(ContentText(JNum(n)).value)) == ToNumber(JNum(n))
  {
    ToNumberOfNumeral(n);
  }

  /** What `updateUI` draws into the form: the `checked` state of the six
      checkboxes, the value written to each of the three selects, the
      selected colour option and the texts of the two counters. */
  datatype Controls = Controls(
    enableHorizon: bool, enableAnimations: bool, compactMode: bool, autoDetect: bool,
    highContrast: bool, reducedMotion: bool,
    themeSelect: Json, performanceSelect: Json, fontSizeSelect: Json,
    selectedColor: Option<string>, transformedText: string, sessionText: string)

  /** The form before anything was drawn. */
  const NoControls := Controls(false, false, false, false, false, false,
    JUndefined, JUndefined, JUndefined, None, "", "")

  /** The controls `updateUI` leaves, from the ones shown before: the first
      four checkboxes are set; reading a property of a nullish
      `accessibility` group then throws, and otherwise the two accessibility
      checkboxes, the three selects, the palette (`colors` are its options'
      colours) and the counters follow. */
  function DrawnControls(c: Controls, settings: Json, stats: Json, colors: set<string>): Controls
  {
    var first := c.(enableHorizon := Truthy(Member(settings, "enabled")),
                    enableAnimations := Truthy(Member(settings, "animations")),
                    compactMode := Truthy(Member(settings, "compactMode")),
                    autoDetect := Truthy(Member(settings, "autoDetect")));
    var group := Member(settings, "accessibility");
    if Nullish(group) then first
    else
      var t := ContentText(Member(stats, "transformedPages"));
      var n := ContentText(Member(stats, "totalSessions"));
      first.(highContrast := Truthy(Member(group, "highContrast")),
             reducedMotion := Truthy(Member(group, "reducedMotion")),
             themeSelect := Member(settings, "theme"),
             performanceSelect := Member(settings, "performance"),
             fontSizeSelect := Member(group, "fontSize"),
             selectedColor := Welcome.Marked(colors, Member(settings, "accentColor")),
             transformedText := if t.Some? then t.value else c.transformedText,
             sessionText := if n.Some? then n.value else c.sessionText)
  }

  /** The first four checkboxes show the truthiness of their settings
      whatever the `accessibility` group holds. */
  lemma DrawnMainChecks(c: Controls, settings: Json, stats: Json, colors: set<string>)
    ensures var r := DrawnControls(c, settings, stats, colors);
      && r.enableHorizon == Truthy(Member(settings, "enabled"))
      && r.enableAnimations == Truthy(Member(settings, "animations"))
      && r.compactMode == Truthy(Member(settings, "compactMode"))
      && r.autoDetect == Truthy(Member(settings, "autoDetect"))
  {
    if Nullish(Member(settings, "accessibility")) {
      DrawnUpToThrow(c, settings, stats, colors);
    }
  }

  /** With a nullish group only the first four checkboxes change. */
  lemma DrawnUpToThrow(c: Controls, settings: Json, stats: Json, colors: set<string>)
    requires Nullish(Member(settings, "accessibility"))
    ensures var r := DrawnControls(c, settings, stats, colors);
      r == c.(enableHorizon := r.enableHorizon, enableAnimations := r.enableAnimations,
              compactMode := r.compactMode, autoDetect := r.autoDetect)
  {
  }

  /** Otherwise every control shows its setting: the accessibility
      checkboxes their truthiness, each select the setting's value, and the
      palette marks the accent colour exactly when it is one of its
      colours. */
  lemma DrawnControlsShow(c: Controls, settings: Json, stats: Json, colors: set<string>)
    requires !Nullish(Member(settings, "accessibility"))
    ensures var r := DrawnControls(c, settings, stats, colors);
      var group := Member(settings, "accessibility");
      var accent := Member(settings, "accentColor");
      && r.highContrast == Truthy(Member(group, "highContrast"))
      && r.reducedMotion == Truthy(Member(group, "reducedMotion"))
      && r.themeSelect == Member(settings, "theme")
      && r.performanceSelect == Member(settings, "performance")
      && r.fontSizeSelect == Member(group, "fontSize")
      && (r.selectedColor.Some? <==> accent.JStr? && accent.s in colors)
      && (r.selectedColor.Some? ==> accent == JStr(r.selectedColor.value))
  {
  }

  /** ... and each counter shows the stored count's digits. */
  lemma DrawnCounters(c: Controls, settings: Json, stats: Json, colors: set<string>, pages: nat, sessions: nat)
    requires !Nullish(Member(settings, "accessibility"))
    requires Member(stats, "transformedPages") == JNum(pages) && Member(stats, "totalSessions") == JNum(sessions)
    ensures var r := DrawnControls(c, settings, stats, colors);
      r.transformedText == NatToString(pages) && r.sessionText == NatToString(sessions)
  {
  }

  /** What `updateUI` reads from the default tree. */
  lemma DefaultsRead()
    ensures Member(DefaultSettings, "enabled") == JBool(true)
    ensures Member(DefaultSettings, "animations") == JBool(true)
    ensures Member(DefaultSettings, "compactMode") == JBool(false)
    ensures Member(DefaultSettings, "autoDetect") == JBool(true)
    ensures Member(DefaultSettings, "accessibility") == AccessibilityDefaults
    ensures Member(DefaultSettings, "theme") == JStr("light")
    ensures Member(DefaultSettings, "performance") == JStr("balanced")
    ensures Member(DefaultSettings, "accentColor") == JStr("#4318FF")
    ensures Member(AccessibilityDefaults, "highContrast") == JBool(false)
    ensures Member(AccessibilityDefaults, "reducedMotion") == JBool(false)
    ensures Member(AccessibilityDefaults, "fontSize") == JStr("normal")
  {
  }

  /** The accessibility controls: the control's id and the key of the
      `accessibility` group its handler writes. */
  const AccessibilityControls: seq<(string, string)> := [
    ("highContrast", "highContrast"), ("reducedMotion", "reducedMotion"), ("fontSizeSelect", "fontSize")]

  const SavedNotice := ("Настройки сохранены!", "success")
  const ImportFailedNotice := ("Ошибка импорта настроек", "error")
  const ImportedNotice := ("Настройки импортированы!", "success")

  class HorizonPopup {
    var settings: Json
    var stats: Json
    /** The `horizonSettings` entry of `chrome.storage.sync`. */
    var syncedSettings: Json
    /** The `horizonStats` entry of `chrome.storage.local`. */
    var storedStats: Json
    var indicator: Popup.Indicator
    var details: string
    var scoreText: string
    var lastUsedText: string
    /** The toasts shown so far: message and type. */
    var notices: seq<(string, string)>
    /** Whether `init` got as far as `bindEvents`. */
    var eventsBound: bool
    /** The colours of the palette's options, and what the form shows. */
    const colorOptions: set<string>
    var controls: Controls

    predicate Valid()
      reads this
    {
      settings.JObj? && stats.JObj?
    }

    /** `new HorizonPopup()`, with the storage entries the popup will find;
        `init` follows. */
    constructor(synced: Json, local: Json, colors: set<string>)
      ensures Valid()
      ensures settings == DefaultSettings && stats == DefaultStats
      ensures syncedSettings == synced && storedStats == local
      ensures notices == [] && !eventsBound
      ensures colorOptions == colors && controls == NoControls
    {
      settings := DefaultSettings;
      stats := DefaultStats;
      syncedSettings := synced;
      storedStats := local;
      indicator := Popup.StatusIndicator(JBool(true));
      details, scoreText, lastUsedText := "", "", "";
      notices := [];
      eventsBound := false;
      colorOptions := colors;
      controls := NoControls;
    }

    /** `updateUI`, up to its first exception: the status is drawn and the
        form's controls follow `DrawnControls`; reading a property of a
        nullish `accessibility` group throws before the score and the
        last-use line are drawn.  `stamp` and `now` are the time values
        `formatLastUsed` reads. */
    method UpdateUI(stamp: Option<int>, now: int, dateText: string) returns (threw: bool)
      modifies this
      ensures indicator == Popup.StatusIndicator(Member(settings, "enabled"))
      ensures details == StatusDetails(Member(settings, "enabled"))
      ensures controls == DrawnControls(old(controls), settings, stats, colorOptions)
      ensures threw <==> Nullish(Member(settings, "accessibility"))
      ensures !threw ==> (scoreText == PerformanceScore(Member(settings, "performance"))
        && lastUsedText == FormatLastUsed(Member(stats, "lastUsed"), stamp, now, dateText))
      ensures threw ==> scoreText == old(scoreText) && lastUsedText == old(lastUsedText)
      ensures settings == old(settings) && stats == old(stats)
      ensures syncedSettings == old(syncedSettings) && storedStats == old(storedStats)
      ensures notices == old(notices) && eventsBound == old(eventsBound)
    {
      indicator := Popup.StatusIndicator(Member(settings, "enabled"));
      details := StatusDetails(Member(settings, "enabled"));
      controls := DrawnControls(controls, settings, stats, colorOptions);
      threw := Nullish(Member(settings, "accessibility"));
      if !threw {
        scoreText := PerformanceScore(Member(settings, "performance"));
        lastUsedText := FormatLastUsed(Member(stats, "lastUsed"), stamp, now, dateText);
      }
    }

    /** `init`: both stored entries are loaded, the page is drawn, and the
        handlers are bound only when drawing did not throw. */
    method Init(stamp: Option<int>, now: int, dateText: string)
      requires Valid()
      modifies this
      ensures Valid()
      ensures settings == Popup.SpreadStored(old(settings), syncedSettings)
      ensures stats == Popup.SpreadStored(old(stats), storedStats)
      ensures indicator == Popup.StatusIndicator(Member(settings, "enabled"))
      ensures eventsBound <==> !Nullish(Member(settings, "accessibility"))
      ensures eventsBound ==> scoreText == PerformanceScore(Member(settings, "performance"))
      ensures syncedSettings == old(syncedSettings) && storedStats == old(storedStats)
      ensures notices == old(notices)
      ensures details == StatusDetails(Member(settings, "enabled"))
      ensures controls == DrawnControls(old(controls), settings, stats, colorOptions)
      ensures eventsBound ==> lastUsedText == FormatLastUsed(Member(stats, "lastUsed"), stamp, now, dateText)
      ensures !eventsBound ==> scoreText == old(scoreText) && lastUsedText == old(lastUsedText)
    {
      settings := Popup.SpreadStored(settings, syncedSettings);
      stats := Popup.SpreadStored(stats, storedStats);
      var threw := UpdateUI(stamp, now, dateText);
      eventsBound := !threw;
    }

    /** `saveSettings`: the settings are stored and the user is told. */
    method SaveSettings()
      modifies this
      ensures syncedSettings == old(settings)
      ensures notices == old(notices) + [SavedNotice]
      ensures settings == old(settings) && stats == old(stats) && storedStats == old(storedStats)
      ensures indicator == old(indicator) && details == old(details)
      ensures scoreText == old(scoreText) && lastUsedText == old(lastUsedText)
      ensures eventsBound == old(eventsBound)
      ensures controls == old(controls)
    {
      syncedSettings := settings;
      notices := notices + [SavedNotice];
    }

    /** The `change` handler of the main switch: the setting follows the
        switch and the page is redrawn; the settings are stored only when
        the redraw did not throw. */
    method OnEnableChange(checked: bool, stamp: Option<int>, now: int, dateText: string)
      requires Valid() && eventsBound
      modifies this
      ensures Valid()
      ensures settings == JObj(old(settings).fields["enabled" := JBool(checked)])
      ensures indicator == Popup.StatusIndicator(JBool(checked))
      ensures !Nullish(Member(settings, "accessibility")) ==>
        syncedSettings == settings && notices == old(notices) + [SavedNotice]
      ensures Nullish(Member(settings, "accessibility")) ==>
        syncedSettings == old(syncedSettings) && notices == old(notices)
      ensures stats == old(stats) && storedStats == old(storedStats)
      ensures details == StatusDetails(JBool(checked))
      ensures controls == DrawnControls(old(controls), settings, stats, colorOptions)
      ensures !Nullish(Member(settings, "accessibility")) ==>
        scoreText == PerformanceScore(Member(settings, "performance"))
        && lastUsedText == FormatLastUsed(Member(stats, "lastUsed"), stamp, now, dateText)
      ensures Nullish(Member(settings, "accessibility")) ==>
        scoreText == old(scoreText) && lastUsedText == old(lastUsedText)
      ensures eventsBound == old(eventsBound)
    {
      settings := JObj(settings.fields["enabled" := JBool(checked)]);
      var threw := UpdateUI(stamp, now, dateText);
      if !threw {
        SaveSettings();
      }
    }

    /** The handlers of the other top-level controls (the same six as in the
        other popup): the setting takes the value and is stored. */
    method OnControlChange(id: string, value: Json)
      requires Valid() && eventsBound
      modifies this
      ensures Valid()
      ensures ExactLookup(Popup.Controls, id).None? ==>
        settings == old(settings) && syncedSettings == old(syncedSettings) && notices == old(notices)
      ensures ExactLookup(Popup.Controls, id).Some? ==>
        settings == JObj(old(settings).fields[ExactLookup(Popup.Controls, id).value := value])
        && syncedSettings == settings && notices == old(notices) + [SavedNotice]
      ensures stats == old(stats) && storedStats == old(storedStats) && indicator == old(indicator)
      ensures details == old(details) && controls == old(controls)
      ensures scoreText == old(scoreText) && lastUsedText == old(lastUsedText) && eventsBound == old(eventsBound)
    {
      var key := ExactLookup(Popup.Controls, id);
      if key.Some? {
        settings := JObj(settings.fields[key.value := value]);
        SaveSettings();
      }
    }

    /** The handlers of the accessibility controls write into the
        `accessibility` group in place.  Writing into a nullish group, or
        (in the strict code of a class) into a primitive one, throws before
        anything is stored; an array group takes a named property that
        storing drops, so only the save is seen. */
    method OnAccessibilityChange(id: string, value: Json) returns (threw: bool)
      requires Valid() && eventsBound
      modifies this
      ensures Valid()
      ensures var key := ExactLookup(AccessibilityControls, id);
        var group := Member(old(settings), "accessibility");
        && (threw <==> key.Some? && !group.JObj? && !group.JArr?)
        && (key.Some? && group.JObj? ==>
              settings == JObj(old(settings).fields["accessibility" := JObj(group.fields[key.value := value])]))
        && (key.Some? && (group.JObj? || group.JArr?) ==>
              syncedSettings == settings && notices == old(notices) + [SavedNotice])
        && (key.None? || threw ==>
              syncedSettings == old(syncedSettings) && notices == old(notices))
        && (!(key.Some? && group.JObj?) ==> settings == old(settings))
      ensures stats == old(stats) && storedStats == old(storedStats) && indicator == old(indicator)
      ensures details == old(details) && controls == old(controls)
      ensures scoreText == old(scoreText) && lastUsedText == old(lastUsedText) && eventsBound == old(eventsBound)
    {
      threw := false;
      var key := ExactLookup(AccessibilityControls, id);
      if key.Some? {
        var group := Member(settings, "accessibility");
        if group.JObj? {
          settings := JObj(settings.fields["accessibility" := JObj(group.fields[key.value := value])]);
          SaveSettings();
        } else if group.JArr? {
          SaveSettings();
        } else {
          threw := true;
        }
      }
    }

    /** `resetSettings`: once confirmed, the default tree is put back,
        stored and drawn, which always succeeds. */
    method ResetSettings(confirmed: bool, stamp: Option<int>, now: int, dateText: string)
      requires Valid()
      modifies this
      ensures Valid()
      ensures settings == if confirmed then DefaultSettings else old(settings)
      ensures confirmed ==> (syncedSettings == DefaultSettings
        && notices == old(notices) + [SavedNotice]
        && indicator == Popup.StatusIndicator(JBool(true))
        && scoreText == "85%"
        && lastUsedText == FormatLastUsed(Member(stats, "lastUsed"), stamp, now, dateText))
      ensures !confirmed ==> syncedSettings == old(syncedSettings) && notices == old(notices)
      ensures stats == old(stats) && storedStats == old(storedStats) && eventsBound == old(eventsBound)
      ensures confirmed ==>
        details == StatusDetails(JBool(true))
        && controls == DrawnControls(old(controls), DefaultSettings, stats, colorOptions)
      ensures !confirmed ==>
        indicator == old(indicator) && details == old(details) && controls == old(controls)
        && scoreText == old(scoreText) && lastUsedText == old(lastUsedText)
    {
      if confirmed {
        settings := DefaultSettings;
        SaveSettings();
        DefaultsRead();
        var threw := UpdateUI(stamp, now, dateText);
      }
    }

    /** The `change` callback of `importSettings`, given the parsed file
        (`None` when `JSON.parse` throws).  Once confirmed, the tree is
        spread over the settings without any guard, stored and drawn; a
        redraw that throws ends in the import error instead of the success
        toast. */
    method ImportSettings(parsed: Option<Json>, confirmed: bool, stamp: Option<int>, now: int, dateText: string)
      requires Valid() && eventsBound
      modifies this
      ensures Valid()
      ensures parsed.None? ==> (settings == old(settings) && syncedSettings == old(syncedSettings)
        && notices == old(notices) + [ImportFailedNotice])
      ensures parsed.Some? && !confirmed ==>
        settings == old(settings) && syncedSettings == old(syncedSettings) && notices == old(notices)
      ensures parsed.Some? && confirmed ==>
        settings == Spread(old(settings), parsed.value) && syncedSettings == settings
        && notices == old(notices) + [SavedNotice,
             if Nullish(Member(settings, "accessibility")) then ImportFailedNotice else ImportedNotice]
      ensures stats == old(stats) && storedStats == old(storedStats)
      ensures parsed.Some? && confirmed ==>
        indicator == Popup.StatusIndicator(Member(settings, "enabled"))
        && details == StatusDetails(Member(settings, "enabled"))
        && controls == DrawnControls(old(controls), settings, stats, colorOptions)
        && (!Nullish(Member(settings, "accessibility")) ==>
              scoreText == PerformanceScore(Member(settings, "performance"))
              && lastUsedText == FormatLastUsed(Member(stats, "lastUsed"), stamp, now, dateText))
        && (Nullish(Member(settings, "accessibility")) ==>
              scoreText == old(scoreText) && lastUsedText == old(lastUsedText))
      ensures !(parsed.Some? && confirmed) ==>
        indicator == old(indicator) && details == old(details) && controls == old(controls)
        && scoreText == old(scoreText) && lastUsedText == old(lastUsedText)
      ensures eventsBound == old(eventsBound)
    {
      if parsed.None? {
        notices := notices + [ImportFailedNotice];
      } else if confirmed {
        ApplyImported(parsed.value, stamp, now, dateText);
      }
    }

    /** The confirmed branch of the import: the spread, the save, the
        redraw and the toast that tells how the redraw ended. */
    method ApplyImported(tree: Json, stamp: Option<int>, now: int, dateText: string)
      requires Valid()
      modifies this
      ensures Valid()
      ensures settings == Spread(old(settings), tree) && syncedSettings == settings
      ensures notices == old(notices) + [SavedNotice,
        if Nullish(Member(settings, "accessibility")) then ImportFailedNotice else ImportedNotice]
      ensures stats == old(stats) && storedStats == old(storedStats) && eventsBound == old(eventsBound)
      ensures indicator == Popup.StatusIndicator(Member(settings, "enabled"))
      ensures details == StatusDetails(Member(settings, "enabled"))
      ensures controls == DrawnControls(old(controls), settings, stats, colorOptions)
      ensures !Nullish(Member(settings, "accessibility")) ==>
        scoreText == PerformanceScore(Member(settings, "performance"))
        && lastUsedText == FormatLastUsed(Member(stats, "lastUsed"), stamp, now, dateText)
      ensures Nullish(Member(settings, "accessibility")) ==>
        scoreText == old(scoreText) && lastUsedText == old(lastUsedText)
    {
      settings := Spread(settings, tree);
      SaveSettings();
      RedrawWithToast(stamp, now, dateText);
    }

    /** The redraw that ends the import, and the toast that tells how it
        ended. */
    method RedrawWithToast(stamp: Option<int>, now: int, dateText: string)
      modifies this
      ensures notices == old(notices) + [
        if Nullish(Member(settings, "accessibility")) then ImportFailedNotice else ImportedNotice]
      ensures settings == old(settings) && syncedSettings == old(syncedSettings)
      ensures stats == old(stats) && storedStats == old(storedStats) && eventsBound == old(eventsBound)
      ensures indicator == Popup.StatusIndicator(Member(settings, "enabled"))
      ensures details == StatusDetails(Member(settings, "enabled"))
      ensures controls == DrawnControls(old(controls), settings, stats, colorOptions)
      ensures !Nullish(Member(settings, "accessibility")) ==>
        scoreText == PerformanceScore(Member(settings, "performance"))
        && lastUsedText == FormatLastUsed(Member(stats, "lastUsed"), stamp, now, dateText)
      ensures Nullish(Member(settings, "accessibility")) ==>
        scoreText == old(scoreText) && lastUsedText == old(lastUsedText)
    {
      var threw := UpdateUI(stamp, now, dateText);
      if threw {
        notices := notices + [ImportFailedNotice];
      } else {
        notices := notices + [ImportedNotice];
      }
    }

    /** `checkCurrentTab`, given the active tab's URL (`None` when there is no
        tab, or when it has no URL and `includes` throws into the handler):
        on a 1C tab the use is recorded with the ISO time `iso`, stored and
        drawn. */
    method CheckCurrentTab(url: Option<string>, iso: string, stamp: Option<int>, now: int, dateText: string)
      requires Valid()
      modifies this
      ensures Valid()
      ensures url.Some? && Is1CUrl(url.value) ==>
        stats == JObj(old(stats).fields["lastUsed" := JStr(iso)]) && storedStats == stats
        && (!Nullish(Member(settings, "accessibility")) ==>
              lastUsedText == FormatLastUsed(JStr(iso), stamp, now, dateText))
      ensures !(url.Some? && Is1CUrl(url.value)) ==>
        stats == old(stats) && storedStats == old(storedStats) && lastUsedText == old(lastUsedText)
      ensures settings == old(settings) && syncedSettings == old(syncedSettings)
      ensures notices == old(notices) && eventsBound == old(eventsBound)
      ensures url.Some? && Is1CUrl(url.value) ==>
        indicator == Popup.StatusIndicator(Member(settings, "enabled"))
        && details == StatusDetails(Member(settings, "enabled"))
        && controls == DrawnControls(old(controls), settings, stats, colorOptions)
        && (!Nullish(Member(settings, "accessibility")) ==>
              scoreText == PerformanceScore(Member(settings, "performance")))
        && (Nullish(Member(settings, "accessibility")) ==>
              scoreText == old(scoreText) && lastUsedText == old(lastUsedText))
      ensures !(url.Some? && Is1CUrl(url.value)) ==> indicator == old(indicator) && details == old(details) && controls == old(controls) && scoreText == old(scoreText)
    {
      if url.Some? && Is1CUrl(url.value) {
        stats := JObj(stats.fields["lastUsed" := JStr(iso)]);
        storedStats := stats;
        var threw := UpdateUI(stamp, now, dateText);
      }
    }
  }
}
