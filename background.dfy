/** The background service worker: settings written at install and migrated
    at update, the enable toggle, per-tab bookkeeping of transformations and
    performance reports, the error log, and the message dispatcher.
    `chrome.storage.sync` and `chrome.storage.local` are maps from keys to
    values; messages sent to tabs are recorded in order; clocks are
    parameters. */
module Background {
  import opened JsText
  import opened Json

  /** Performance entries older than this many milliseconds are dropped. */
  const MaxMetricAge: int := 300000
  /** The error log is trimmed once it grows past this length ... */
  const MaxLogLength: nat := 100
  /** ... down to this many most recent entries. */
  const KeptLogLength: nat := 50
  /** A transformation slower than this many milliseconds prompts advice. */
  const SlowTransformation: int := 2000

  const SettingsKey := "horizonSettings"
  const StatsKey := "horizonStats"
  const ErrorLogKey := "errorLog"

  const SuggestionText := "Обнаружена низкая производительность. Рекомендуем отключить анимации в настройках."

  const AccessibilityDefaults: Json := JObj(map[
    "highContrast" := JBool(false), "reducedMotion" := JBool(false),
    "fontSize" := JStr("normal")])

  const AdvancedDefaults: Json := JObj(map[
    "customCSS" := JStr(""), "debugMode" := JBool(false),
    "experimentalFeatures" := JBool(false)])

  /** The settings written on first installation. */
  const InstallDefaults: Json := JObj(map[
    "enabled" := JBool(true), "theme" := JStr("light"), "animations" := JBool(true),
    "accentColor" := JStr("#4318FF"), "compactMode" := JBool(false),
    "autoDetect" := JBool(true), "performance" := JStr("balanced"),
    "accessibility" := AccessibilityDefaults, "advanced" := AdvancedDefaults])

  /** The URL fragments that mark a tab as showing a 1C application. */
  const TabPatterns: seq<string> := ["/hs/v8reader/", "clobus.uz", "1cfresh.com", "/ws/", "/ru_RU/", "/en_US/"]

  // ------------------------------------------------ tab detection

  /** `is1CTab(url)`: a tab without a URL (or with an empty one) is not a 1C
      tab; otherwise it is one exactly when its URL contains a pattern. */
  function Is1CTab(url: Option<string>): (r: bool)
    ensures r <==> url.Some? && url.value != "" &&
                   exists i :: 0 <= i < |TabPatterns| && Contains(url.value, TabPatterns[i])
  {
    url.Some? && url.value != "" && ContainsAny(url.value, TabPatterns)
  }

  /** Each pattern on its own is recognised, and a tab without a URL never is. */
  lemma Is1CTabPatterns()
    ensures forall i :: 0 <= i < |TabPatterns| ==> Is1CTab(Some(TabPatterns[i]))
    ensures !Is1CTab(None) && !Is1CTab(Some(""))
  {
    forall i | 0 <= i < |TabPatterns| ensures Is1CTab(Some(TabPatterns[i])) {
      ContainsItself(TabPatterns[i]);
    }
  }

  // ------------------------------------------------ settings

  /** `if (!settings[key]) settings[key] = value` on an object's fields. */
  function WithDefault(f: Fields, key: string, value: Json): (r: Fields)
  {
    if key in f && Truthy(f[key]) then f else f[key := value]
  }

  /** The settings `handleUpdate` stores back.  Filling in a missing group
      writes a property: an array takes it as a named property, which
      storage does not keep, so the array is stored as it was; a primitive
      value throws (`None`). */
  function Migrated(settings: Json): (r: Option<Json>)
    ensures r.Some? <==> settings.JObj? || settings.JArr?
    ensures settings.JArr? ==> r == Some(settings)
    ensures settings.JObj? ==> (r.Some? && r.value.JObj? &&
      settings.fields.Keys + {"accessibility", "advanced"} == r.value.fields.Keys &&
      Truthy(r.value.fields["accessibility"]) && Truthy(r.value.fields["advanced"]))
    ensures settings.JObj? ==> forall k :: k in settings.fields && (Truthy(settings.fields[k]) || k !in {"accessibility", "advanced"}) ==>
      r.value.fields[k] == settings.fields[k]
    ensures settings.JObj? ==> forall k :: k in {"accessibility", "advanced"} && !(k in settings.fields && Truthy(settings.fields[k])) ==>
      r.value.fields[k] == (if k == "accessibility" then AccessibilityDefaults else AdvancedDefaults)
  {
    match settings
    case JObj(f) => Some(JObj(WithDefault(WithDefault(f, "accessibility", AccessibilityDefaults), "advanced", AdvancedDefaults)))
    case JArr(_) => Some(settings)
    case _ => None
  }

  /** Migrating migrated settings changes nothing. */
  lemma MigratedIdempotent(settings: Json)
    requires settings.JObj?
    ensures Migrated(Migrated(settings).value) == Migrated(settings)
  {
    var m := Migrated(settings).value;
    assert WithDefault(m.fields, "accessibility", AccessibilityDefaults) == m.fields;
    assert WithDefault(m.fields, "advanced", AdvancedDefaults) == m.fields;
  }

  /** `!settings.enabled`, the flag `toggleHorizonUI` writes and sends. */
  function FlippedFlag(settings: Json): (r: Json)
    ensures r.JBool? && (r.b <==> !Truthy(Member(settings, "enabled")))
  {
    JBool(!Truthy(Member(settings, "enabled")))
  }

  /** The settings `toggleHorizonUI` stores: `enabled` flipped by truthiness.
      An array takes the named property, which storage does not keep, so the
      array is stored as it was; writing the flag onto a primitive throws
      (`None`). */
  function Toggled(settings: Json): (r: Option<Json>)
    ensures r.Some? <==> settings.JObj? || settings.JArr?
    ensures settings.JObj? ==>
      r.Some? && r.value.JObj? && r.value.fields == settings.fields["enabled" := FlippedFlag(settings)]
    ensures settings.JArr? ==> r == Some(settings)
  {
    match settings
    case JObj(f) => Some(JObj(f["enabled" := FlippedFlag(settings)]))
    case JArr(_) => Some(settings)
    case _ => None
  }

  /** An array stored as the settings is kept, and the tab is told the
      extension is enabled. */
  lemma ArrayToggleEnables(settings: Json)
    requires settings.JArr?
    ensures Toggled(settings) == Some(settings) && FlippedFlag(settings) == JBool(true)
  {
  }

  /** A missing flag becomes `true`, and toggling twice gives back the
      original flag's truth value with everything else unchanged. */
  lemma ToggledTwice(settings: Json)
    requires settings.JObj?
    ensures "enabled" !in settings.fields ==> Toggled(settings).value.fields["enabled"] == JBool(true)
    ensures Toggled(Toggled(settings).value).value.fields ==
      settings.fields["enabled" := JBool(Truthy(Member(settings, "enabled")))]
  {
  }

  // ------------------------------------------------ statistics

  /** `v++` on a stored counter.  A counter that converts to `NaN` stays
      `NaN`, which storage keeps as `null`; so does one that converts to a
      fractional number, which these integer values cannot hold. */
  function Incremented(v: Json): (r: Json)
    ensures v.JNum? ==> r == JNum(v.n + 1)
    ensures v.JNull? ==> r == JNum(1)
    ensures v.JUndefined? ==> r == JNull
  {
    var d := ToNumber(v);
    if d.Some? && d.value.mantissa % Pow10(d.value.scale) == 0 then
      JNum(d.value.mantissa / Pow10(d.value.scale) + 1)
    else JNull
  }

  /** The stats `updateTransformationStats` stores, from what
      `storage.local` holds under `horizonStats`.  The `|| {...}` fallback
      in the code never applies, since the storage read resolves to an
      object even when nothing is stored; so missing stats throw (`None`),
      as does a primitive.  An array takes the two counters as named
      properties, which storage does not keep, so it is stored as it was. */
  function StatsAfterTransformation(stored: Option<Json>, nowIso: string): (r: Option<Json>)
    ensures r.Some? <==> stored.Some? && (stored.value.JObj? || stored.value.JArr?)
    ensures stored.Some? && stored.value.JArr? ==> r == stored
    ensures stored.Some? && stored.value.JObj? ==> (r.Some? && r.value.JObj? &&
      r.value.fields.Keys == stored.value.fields.Keys + {"transformedPages", "lastUsed"} &&
      r.value.fields["transformedPages"] == Incremented(Member(stored.value, "transformedPages")) &&
      r.value.fields["lastUsed"] == JStr(nowIso) &&
      forall k :: k in stored.value.fields && k !in {"transformedPages", "lastUsed"} ==>
        r.value.fields[k] == stored.value.fields[k])
  {
    if stored.Some? && stored.value.JObj? then
      var f := stored.value.fields;
      Some(JObj(f["transformedPages" := Incremented(Member(stored.value, "transformedPages"))]["lastUsed" := JStr(nowIso)]))
    else if stored.Some? && stored.value.JArr? then stored
    else None
  }

  /** Two transformations count two pages; with nothing stored yet the
      count never starts. */
  lemma StatsCountPages(stats: Fields, n: int, iso1: string, iso2: string)
    requires "transformedPages" in stats && stats["transformedPages"] == JNum(n)
    ensures var once := StatsAfterTransformation(Some(JObj(stats)), iso1);
      once.Some? && StatsAfterTransformation(once, iso2).Some? &&
      StatsAfterTransformation(once, iso2).value.fields["transformedPages"] == JNum(n + 2)
    ensures StatsAfterTransformation(None, iso1).None?
  {
    var once := StatsAfterTransformation(Some(JObj(stats)), iso1);
    assert Member(once.value, "transformedPages") == JNum(n + 1);
  }

  // ------------------------------------------------ the error log

  /** The log after the size check: past 100 entries only the last 50 stay. */
  function BoundLog(log: seq<Json>): (r: seq<Json>)
    ensures |r| <= MaxLogLength
    ensures |r| <= |log| && r == log[|log| - |r|..]
    ensures |log| <= MaxLogLength ==> r == log
    ensures |log| > MaxLogLength ==> |r| == KeptLogLength
  {
    if |log| > MaxLogLength then log[|log| - KeptLogLength..] else log
  }

  /** The entry pushed for a reported error. */
  function ErrorEntry(tabId: int, error: Json, now: int, url: Json): (r: Json)
    ensures r.JObj? && r.fields.Keys == {"tabId", "error", "stack", "timestamp", "url"}
  {
    JObj(map["tabId" := JNum(tabId), "error" := Member(error, "message"),
             "stack" := Member(error, "stack"), "timestamp" := JNum(now), "url" := url])
  }

  /** The log `handleErrorReport` stores, from what `storage.local` holds
      under `errorLog`.  The `|| { errorLog: [] }` fallback never applies, so
      a missing log, or one that is not an array, throws at `push` (`None`). */
  function LoggedErrors(stored: Option<Json>, entry: Json): (r: Option<seq<Json>>)
    ensures r.Some? <==> stored.Some? && stored.value.JArr?
    ensures r.Some? ==> r.value == BoundLog(stored.value.items + [entry])
  {
    if stored.Some? && stored.value.JArr? then Some(BoundLog(stored.value.items + [entry])) else None
  }

  /** Every report keeps the log within 100 entries and ends it with the new
      entry; below the bound nothing is dropped. */
  lemma LoggedErrorsKeepNewest(log: seq<Json>, entry: Json)
    ensures var r := LoggedErrors(Some(JArr(log)), entry).value;
      |r| <= MaxLogLength && |r| > 0 && r[|r| - 1] == entry &&
      (|log| < MaxLogLength ==> r == log + [entry]) &&
      (|log| >= MaxLogLength ==> |r| == KeptLogLength && r == log[|log| + 1 - KeptLogLength..] + [entry])
  {
    var l := log + [entry];
    var r := BoundLog(l);
    if |log| >= MaxLogLength {
      assert l[|l| - KeptLogLength..] == log[|log| + 1 - KeptLogLength..] + [entry];
    }
  }

  /** The first error ever reported is lost: with no log stored the report
      throws instead of starting one. */
  lemma FirstErrorReportThrows(entry: Json)
    ensures LoggedErrors(None, entry).None?
  {
  }

  // ------------------------------------------------ performance metrics

  /** `now - metrics.timestamp > maxAge`, false when the timestamp is `NaN`. */
  predicate Expired(metric: Json, now: int) {
    var d := ToNumber(Member(metric, "timestamp"));
    d.Some? && now * Pow10(d.value.scale) - d.value.mantissa > MaxMetricAge * Pow10(d.value.scale)
  }

  /** The metrics that survive a cleanup at time `now`. */
  function FreshMetrics(metrics: map<int, Json>, now: int): (r: map<int, Json>)
  {
    map t | t in metrics && !Expired(metrics[t], now) :: metrics[t]
  }

  /** The metrics while a cleanup is under way: the entries in `todo` are
      still to be looked at. */
  function Unswept(metrics: map<int, Json>, todo: set<int>, now: int): (r: map<int, Json>)
  {
    map t | t in metrics && (t in todo || !Expired(metrics[t], now)) :: metrics[t]
  }

  /** Cleanup removes exactly the expired entries and changes no other. */
  lemma FreshMetricsExact(metrics: map<int, Json>, now: int)
    ensures forall t :: t in FreshMetrics(metrics, now) <==> t in metrics && !Expired(metrics[t], now)
    ensures forall t :: t in FreshMetrics(metrics, now) ==> FreshMetrics(metrics, now)[t] == metrics[t]
    ensures FreshMetrics(FreshMetrics(metrics, now), now) == FreshMetrics(metrics, now)
  {
  }

  /** An entry stamped at `ts` lives exactly 300000 ms. */
  lemma ExpiresAfterMaxAge(fields: Fields, ts: int, now: int)
    ensures Expired(JObj(fields["timestamp" := JNum(ts)]), now) <==> now - ts > MaxMetricAge
  {
  }

  function Stamp(now: int): Json {
    JObj(map["timestamp" := JNum(now)])
  }

  /** `{ ...existing, ...data, timestamp: now }`: the report's fields
      override the stored ones and the timestamp overrides both. */
  function MergedMetric(existing: Json, data: Json, now: int): (r: Json)
    ensures r.JObj? && "timestamp" in r.fields && r.fields["timestamp"] == JNum(now)
    ensures r.fields.Keys == OwnProperties(existing).Keys + OwnProperties(data).Keys + {"timestamp"}
    ensures forall k :: k in OwnProperties(data) && k != "timestamp" ==> r.fields[k] == OwnProperties(data)[k]
    ensures forall k :: k in OwnProperties(existing) && k !in OwnProperties(data) && k != "timestamp" ==>
      r.fields[k] == OwnProperties(existing)[k]
  {
    Spread(Spread(existing, data), Stamp(now))
  }

  /** A metric recorded at `now` is not swept by a cleanup at `now`. */
  lemma RecordedMetricIsFresh(existing: Json, data: Json, now: int)
    ensures !Expired(MergedMetric(existing, data, now), now)
  {
    var m := MergedMetric(existing, data, now);
    assert Member(m, "timestamp") == JNum(now);
  }

  // ------------------------------------------------ messages

  /** A message handed to `chrome.tabs.sendMessage`. */
  datatype TabMessage = TabMessage(tabId: int, message: Json)

  /** What `handleMessage` answers: `{ success: true }`, `{ settings }`,
      `{ error: 'Unknown action' }`, or `{ error: error.message }` after a
      handler threw. */
  datatype Reply = Success | SettingsReply(settings: Json) | UnknownAction | Thrown

  function ToggleMessage(enabled: Json): Json {
    JObj(map["action" := JStr("toggleHorizonUI"), "enabled" := enabled])
  }

  function SuggestionMessage(): Json {
    JObj(map["action" := JStr("showPerformanceNotification"), "message" := JStr(SuggestionText)])
  }

  const Actions: set<string> := {"pageTransformed", "performanceReport", "errorReport", "getSettings", "updateStats"}

  const AutoActivateMessage: Json := JObj(map["action" := JStr("autoActivate")])

  /** Whether `handleTabUpdate` asks a tab to switch itself on: its load has
      completed, it is a 1C tab, and the stored settings have both `enabled`
      and `autoDetect` on. */
  predicate AutoActivates(complete: bool, url: Option<string>, settings: Json)
  {
    complete && Is1CTab(url) && Truthy(settings)
    && Truthy(Member(settings, "enabled")) && Truthy(Member(settings, "autoDetect"))
  }

  /** No activation without stored settings, on a tab that is not a 1C tab,
      or while either flag is off. */
  lemma AutoActivationNeeds(complete: bool, url: Option<string>, settings: Json)
    ensures !Truthy(settings) || !Is1CTab(url) || !complete ==> !AutoActivates(complete, url, settings)
    ensures settings.JObj? && "enabled" !in settings.fields ==> !AutoActivates(complete, url, settings)
    ensures settings.JObj? && "autoDetect" in settings.fields && settings.fields["autoDetect"] == JBool(false) ==>
      !AutoActivates(complete, url, settings)
  {
  }

  class BackgroundService {
    var activeTransformations: map<int, Json>
    var performanceMetrics: map<int, Json>
    var sync: map<string, Json>
    var local: map<string, Json>
    var sent: seq<TabMessage>

    /** Every per-tab entry is an object built by spreading. */
    predicate Valid()
      reads this
    {
      (forall t :: t in activeTransformations ==> activeTransformations[t].JObj?) &&
      (forall t :: t in performanceMetrics ==> performanceMetrics[t].JObj?)
    }

    constructor(sync0: map<string, Json>, local0: map<string, Json>)
      ensures Valid()
      ensures activeTransformations == map[] && performanceMetrics == map[]
      ensures sync == sync0 && local == local0 && sent == []
    {
      activeTransformations := map[];
      performanceMetrics := map[];
      sync := sync0;
      local := local0;
      sent := [];
    }

    /** On first installation the defaults are written. */
    method SetDefaultSettings()
      modifies this
      ensures sync == old(sync)[SettingsKey := InstallDefaults]
      ensures local == old(local) && sent == old(sent)
      ensures activeTransformations == old(activeTransformations) && performanceMetrics == old(performanceMetrics)
    {
      sync := sync[SettingsKey := InstallDefaults];
    }

    /** On update, stored settings gain the groups that are missing. */
    method HandleUpdate()
      modifies this
      ensures var s := if SettingsKey in old(sync) then old(sync)[SettingsKey] else JUndefined;
        sync == (if Truthy(s) && Migrated(s).Some? then old(sync)[SettingsKey := Migrated(s).value] else old(sync))
      ensures local == old(local) && sent == old(sent)
      ensures activeTransformations == old(activeTransformations) && performanceMetrics == old(performanceMetrics)
    {
      if SettingsKey in sync && Truthy(sync[SettingsKey]) {
        var m := Migrated(sync[SettingsKey]);
        if m.Some? {
          sync := sync[SettingsKey := m.value];
        }
      }
    }

    /** Flips `enabled` in the stored settings (starting from `{}` when none
      are stored) and tells the tab; a failure is caught and logged. */
    method ToggleHorizonUI(tabId: int)
      modifies this
      ensures var s := if SettingsKey in old(sync) && Truthy(old(sync)[SettingsKey]) then old(sync)[SettingsKey] else Empty;
        if Toggled(s).Some? then
          sync == old(sync)[SettingsKey := Toggled(s).value] &&
          sent == old(sent) + [TabMessage(tabId, ToggleMessage(FlippedFlag(s)))]
        else sync == old(sync) && sent == old(sent)
      ensures local == old(local)
      ensures activeTransformations == old(activeTransformations) && performanceMetrics == old(performanceMetrics)
    {
      var settings := if SettingsKey in sync && Truthy(sync[SettingsKey]) then sync[SettingsKey] else Empty;
      var t := Toggled(settings);
      if t.Some? {
        sync := sync[SettingsKey := t.value];
        sent := sent + [TabMessage(tabId, ToggleMessage(FlippedFlag(settings)))];
      }
    }

    /** `handleInstallation`: a first install writes the defaults (the
        welcome tab it opens is not modelled), an update migrates the stored
        settings, and any other reason does nothing. */
    method HandleInstallation(reason: string)
      modifies this
      ensures reason == "install" ==> sync == old(sync)[SettingsKey := InstallDefaults]
      ensures reason == "update" ==>
        var s := if SettingsKey in old(sync) then old(sync)[SettingsKey] else JUndefined;
        sync == (if Truthy(s) && Migrated(s).Some? then old(sync)[SettingsKey := Migrated(s).value] else old(sync))
      ensures reason != "install" && reason != "update" ==> sync == old(sync)
      ensures local == old(local) && sent == old(sent)
      ensures activeTransformations == old(activeTransformations) && performanceMetrics == old(performanceMetrics)
    {
      if reason == "install" {
        SetDefaultSettings();
      } else if reason == "update" {
        HandleUpdate();
      }
    }

    /** `handleTabUpdate`: `autoActivate` is sent to the tab exactly when
        `AutoActivates` holds; a failed send is caught. */
    method HandleTabUpdate(tabId: int, complete: bool, url: Option<string>)
      modifies this
      ensures var s := if SettingsKey in old(sync) then old(sync)[SettingsKey] else JUndefined;
        sent == if AutoActivates(complete, url, s) then old(sent) + [TabMessage(tabId, AutoActivateMessage)] else old(sent)
      ensures sync == old(sync) && local == old(local)
      ensures activeTransformations == old(activeTransformations) && performanceMetrics == old(performanceMetrics)
    {
      if complete && Is1CTab(url) {
        var settings := if SettingsKey in sync then sync[SettingsKey] else JUndefined;
        if Truthy(settings) && Truthy(Member(settings, "enabled")) && Truthy(Member(settings, "autoDetect")) {
          sent := sent + [TabMessage(tabId, AutoActivateMessage)];
        }
      }
    }

    /** A closed tab's entries are forgotten. */
    method CleanupTab(tabId: int)
      modifies this
      ensures activeTransformations == old(activeTransformations) - {tabId}
      ensures performanceMetrics == old(performanceMetrics) - {tabId}
      ensures sync == old(sync) && local == old(local) && sent == old(sent)
    {
      activeTransformations := activeTransformations - {tabId};
      performanceMetrics := performanceMetrics - {tabId};
    }

    /** Walks the metrics and deletes every expired entry. */
    method CleanupOldMetrics(now: int)
      modifies this
      ensures performanceMetrics == FreshMetrics(old(performanceMetrics), now)
      ensures activeTransformations == old(activeTransformations)
      ensures sync == old(sync) && local == old(local) && sent == old(sent)
    {
      ghost var original := performanceMetrics;
      var todo := performanceMetrics.Keys;
      while todo != {}
        invariant todo <= original.Keys
        invariant performanceMetrics == Unswept(original, todo, now)
        invariant activeTransformations == old(activeTransformations)
        invariant sync == old(sync) && local == old(local) && sent == old(sent)
        decreases todo
      {
        var tab := Pick(todo);
        if Expired(performanceMetrics[tab], now) {
          performanceMetrics := performanceMetrics - {tab};
        }
        todo := todo - {tab};
      }
      assert Unswept(original, {}, now) == FreshMetrics(original, now);
    }

    method HandlePageTransformed(tabId: int, data: Json, now: int)
      modifies this
      ensures activeTransformations == old(activeTransformations)[tabId := Spread(data, Stamp(now))]
      ensures performanceMetrics == old(performanceMetrics)
      ensures sync == old(sync) && local == old(local) && sent == old(sent)
    {
      activeTransformations := activeTransformations[tabId := Spread(data, Stamp(now))];
    }

    /** Counts a transformed page; `ok` is false when it threw. */
    method UpdateTransformationStats(nowIso: string) returns (ok: bool)
      modifies this
      ensures var next := StatsAfterTransformation(if StatsKey in old(local) then Some(old(local)[StatsKey]) else None, nowIso);
        ok == next.Some? && local == (if ok then old(local)[StatsKey := next.value] else old(local))
      ensures activeTransformations == old(activeTransformations) && performanceMetrics == old(performanceMetrics)
      ensures sync == old(sync) && sent == old(sent)
    {
      var next := StatsAfterTransformation(if StatsKey in local then Some(local[StatsKey]) else None, nowIso);
      ok := next.Some?;
      if ok {
        local := local[StatsKey := next.value];
      }
    }

    /** The first statement of `handlePerformanceReport`: the report and a
      timestamp are merged into the tab's metrics. */
    method RecordMetrics(tabId: int, data: Json, now: int)
      modifies this
      ensures var existing := if tabId in old(performanceMetrics) && Truthy(old(performanceMetrics)[tabId]) then old(performanceMetrics)[tabId] else Empty;
        performanceMetrics == old(performanceMetrics)[tabId := MergedMetric(existing, data, now)]
      ensures activeTransformations == old(activeTransformations) && sent == old(sent)
      ensures sync == old(sync) && local == old(local)
    {
      var existing := if tabId in performanceMetrics && Truthy(performanceMetrics[tabId]) then performanceMetrics[tabId] else Empty;
      performanceMetrics := performanceMetrics[tabId := MergedMetric(existing, data, now)];
    }

    /** Advises the tab to switch animations off when the reported
      transformation took longer than two seconds. */
    method AdviseIfSlow(tabId: int, data: Json)
      modifies this
      ensures sent == if GreaterThan(Member(data, "transformationTime"), SlowTransformation)
                      then old(sent) + [TabMessage(tabId, SuggestionMessage())] else old(sent)
      ensures activeTransformations == old(activeTransformations) && performanceMetrics == old(performanceMetrics)
      ensures sync == old(sync) && local == old(local)
    {
      if GreaterThan(Member(data, "transformationTime"), SlowTransformation) {
        sent := sent + [TabMessage(tabId, SuggestionMessage())];
      }
    }

    /** Overlays a report on the tab's entry and advises when the page was
      slow; reading `data.transformationTime` from a missing report throws
      after the entry was written. */
    method HandlePerformanceReport(tabId: int, data: Json, now: int) returns (ok: bool)
      modifies this
      ensures var existing := if tabId in old(performanceMetrics) && Truthy(old(performanceMetrics)[tabId]) then old(performanceMetrics)[tabId] else Empty;
        performanceMetrics == old(performanceMetrics)[tabId := MergedMetric(existing, data, now)]
      ensures ok <==> !Nullish(data)
      ensures sent == if ok && GreaterThan(Member(data, "transformationTime"), SlowTransformation)
                      then old(sent) + [TabMessage(tabId, SuggestionMessage())] else old(sent)
      ensures activeTransformations == old(activeTransformations)
      ensures sync == old(sync) && local == old(local)
    {
      RecordMetrics(tabId, data, now);
      ok := !Nullish(data);
      if ok {
        AdviseIfSlow(tabId, data);
      }
    }

    /** Appends a reported error to the stored log. `tabUrl` is the URL of
      the reporting tab, `None` when looking the tab up fails; reading a
      missing error's message throws as well. */
    method HandleErrorReport(tabId: int, error: Json, now: int, tabUrl: Option<Json>) returns (ok: bool)
      modifies this
      ensures var stored := if ErrorLogKey in old(local) then Some(old(local)[ErrorLogKey]) else None;
        ok <==> stored.Some? && stored.value.JArr? && !Nullish(error) && tabUrl.Some?
      ensures ok ==> local == old(local)[ErrorLogKey := JArr(LoggedErrors(Some(old(local)[ErrorLogKey]), ErrorEntry(tabId, error, now, tabUrl.value)).value)]
      ensures !ok ==> local == old(local)
      ensures activeTransformations == old(activeTransformations) && performanceMetrics == old(performanceMetrics)
      ensures sync == old(sync) && sent == old(sent)
    {
      var stored := if ErrorLogKey in local then Some(local[ErrorLogKey]) else None;
      if stored.Some? && stored.value.JArr? && !Nullish(error) && tabUrl.Some? {
        var log := LoggedErrors(stored, ErrorEntry(tabId, error, now, tabUrl.value));
        local := local[ErrorLogKey := JArr(log.value)];
        ok := true;
      } else {
        ok := false;
      }
    }

    /** Dispatches a runtime message.  `senderTab` is the id of the sending
      tab (`None` for messages from extension pages, whose `sender.tab` is
      missing); `now` and `nowIso` are the clock; `tabUrl` is what looking
      up the sender tab yields. */
    method HandleMessage(request: Json, senderTab: Option<int>, now: int, nowIso: string, tabUrl: Option<Json>)
      returns (reply: Reply)
      modifies this
      ensures Nullish(request) ==> reply == Thrown
      ensures !Nullish(request) && Member(request, "action") == JStr("getSettings") ==>
        reply == SettingsReply(if SettingsKey in old(sync) then old(sync)[SettingsKey] else JUndefined)
      ensures !Nullish(request) && Member(request, "action") == JStr("updateStats") ==> reply == Thrown
      ensures !Nullish(request) && Member(request, "action") == JStr("pageTransformed") ==>
        (senderTab.None? ==> reply == Thrown && activeTransformations == old(activeTransformations) && local == old(local))
        && (senderTab.Some? ==>
              activeTransformations == old(activeTransformations)[senderTab.value := Spread(Member(request, "data"), Stamp(now))]
              && var next := StatsAfterTransformation(if StatsKey in old(local) then Some(old(local)[StatsKey]) else None, nowIso);
                 reply == (if next.Some? then Success else Thrown)
                 && local == (if next.Some? then old(local)[StatsKey := next.value] else old(local)))
        && performanceMetrics == old(performanceMetrics) && sent == old(sent)
      ensures !Nullish(request) && Member(request, "action") == JStr("performanceReport") ==>
        (senderTab.None? ==> reply == Thrown && performanceMetrics == old(performanceMetrics) && sent == old(sent))
        && (senderTab.Some? ==>
              var tab := senderTab.value;
              var data := Member(request, "data");
              var existing := if tab in old(performanceMetrics) && Truthy(old(performanceMetrics)[tab]) then old(performanceMetrics)[tab] else Empty;
              && performanceMetrics == old(performanceMetrics)[tab := MergedMetric(existing, data, now)]
              && reply == (if Nullish(data) then Thrown else Success)
              && sent == if !Nullish(data) && GreaterThan(Member(data, "transformationTime"), SlowTransformation)
                         then old(sent) + [TabMessage(tab, SuggestionMessage())] else old(sent))
        && activeTransformations == old(activeTransformations) && local == old(local)
      ensures !Nullish(request) && Member(request, "action") == JStr("errorReport") ==>
        var error := Member(request, "error");
        var stored := if ErrorLogKey in old(local) then Some(old(local)[ErrorLogKey]) else None;
        var logged := senderTab.Some? && stored.Some? && stored.value.JArr? && !Nullish(error) && tabUrl.Some?;
        && reply == (if logged then Success else Thrown)
        && (logged ==> local == old(local)[ErrorLogKey :=
              JArr(LoggedErrors(stored, ErrorEntry(senderTab.value, error, now, tabUrl.value)).value)])
        && (!logged ==> local == old(local))
        && activeTransformations == old(activeTransformations) && performanceMetrics == old(performanceMetrics)
        && sent == old(sent)
      ensures !Nullish(request) && (forall a :: a in Actions ==> Member(request, "action") != JStr(a)) ==>
        reply == UnknownAction
      ensures reply.SettingsReply? || reply == UnknownAction ==>
        (local == old(local) && sent == old(sent) &&
         activeTransformations == old(activeTransformations) && performanceMetrics == old(performanceMetrics))
      ensures senderTab.None? ==> (activeTransformations == old(activeTransformations) &&
        performanceMetrics == old(performanceMetrics) && local == old(local))
      ensures sync == old(sync)
    {
      if Nullish(request) {
        return Thrown;
      }
      var action := Member(request, "action");
      var data := Member(request, "data");
      if action == JStr("pageTransformed") {
        if senderTab.None? {
          return Thrown;
        }
        HandlePageTransformed(senderTab.value, data, now);
        var ok := UpdateTransformationStats(nowIso);
        reply := if ok then Success else Thrown;
      } else if action == JStr("performanceReport") {
        if senderTab.None? {
          return Thrown;
        }
        var ok := HandlePerformanceReport(senderTab.value, data, now);
        reply := if ok then Success else Thrown;
      } else if action == JStr("errorReport") {
        if senderTab.None? {
          return Thrown;
        }
        var ok := HandleErrorReport(senderTab.value, Member(request, "error"), now, tabUrl);
        reply := if ok then Success else Thrown;
      } else if action == JStr("getSettings") {
        reply := SettingsReply(if SettingsKey in sync then sync[SettingsKey] else JUndefined);
      } else if action == JStr("updateStats") {
        // The service has no `updateStats` method: calling it throws.
        reply := Thrown;
      } else {
        assert forall a :: a in Actions ==> action != JStr(a);
        reply := UnknownAction;
      }
    }
  }
}
