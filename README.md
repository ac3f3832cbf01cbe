# Horizon UI for 1C — a verified model

Horizon UI is a browser extension that repaints the web client of 1C:Enterprise in the Horizon dashboard style. A content script decides whether the page is a 1C page. It then rebuilds the page's menu, forms and tables, and watches the DOM for new content. A background service worker keeps the settings, statistics and per-tab state. The options, popup and welcome pages edit the settings. Two revisions of the content script and of the popup exist side by side.

This project models the decision logic of those scripts in Dafny and proves what each part promises. The live DOM becomes small records: page markers, elements with classes and attributes, inputs, rows of cell texts. `chrome.storage` becomes maps, and messages to tabs become a recorded sequence. Clocks, device checks and the user's answers to `confirm` become parameters.

Modules, one per source file, plus shared helpers:

- `JsText`: the JavaScript string built-ins the scripts use (`trim`, `toLowerCase`, `includes`, `split`, `parseInt`, `parseFloat`, `Number`).
- `Json`: JavaScript values (JSON plus `undefined`), truthiness, object spread and property lookup.
- `Dom`: the root element's custom properties and classes and the ids of injected `<style>` elements.
- `Batching`: cutting a sequence into batches (`createBatches`).
- `LastUsed`: `formatLastUsed`, which both popups define identically.
- `ContentDom`: the page, element and mutation records, the page types and the listener's replies.
- `ExtContent`: the older content script (horizon-1c-extension/content/content.js).
- `ContentPage`, `ContentMenu`, `ContentForms`, `ContentTable`: the newer content script (content/content.js), which is a diff against the older one. Added and context lines are the current code.
- `Components`: the component library (content/horizon-components.js).
- `Options`: the options page (horizon-1c-extension/options/options.js).
- `Performance`: the performance manager (horizon-1c-extension/content/horizon-performance.js).
- `Accessibility`: the accessibility manager (horizon-1c-extension/content/horizon-accessibility.js).
- `Background`: the service worker (horizon-1c-extension/background/background.js).
- `Welcome`: the welcome page (horizon-1c-extension/welcome/welcome.js).
- `Popup`: the popup of the content bundle (popup/popup.js).
- `ExtPopup`: the popup of the packaged extension (horizon-1c-extension/popup/popup.js).

Objects whose fields the scripts update in place are Dafny classes. Examples are the transformers, the managers, the options page, the popups and the background service. Their methods state their whole new state. Pure computations are functions, and lemmas relate them to one another.

Several behaviours are stated exactly as the code has them, though they look unintended:

- `sortTable` always marks the clicked header `sort-asc`, so clicks never reach descending order (`ContentTable.ClicksStayAscending`).
- The background's `await get(...) || {...}` fallbacks never fire, so a missing error log or statistics entry throws (`Background.FirstErrorReportThrows`, `Background.StatsCountPages`).
- The background's `updateStats` action calls a method the service does not have, so it throws.
- The newer `extractLabelText` strips only one trailing `*`, so `"X**"` becomes `"X*"` (`ContentForms.DoubleStarKeepsOne`).
- The component registry names classes the file does not define (`Components.RegistryAsDeclared`).
- `transform` calls `transformReportPage` and `transformGenericPage`, which neither revision defines, so it throws on report and generic pages (see Findings).
- In the newer revision, a main-interface transform that fails restores the original body and clears `isTransformed`, but `transform` then sets the flag again, so the failed page counts as transformed (`ContentPage.Transformer.Transform`).

## Model

| member | source | states |
|---|---|---|
| Options.MergeDeep | horizon-1c-extension/options/options.js:906-921 | the result of mergeDeep is always an object |
| Options.MergeDeepCoverage | horizon-1c-extension/options/options.js:906-921 | the output's keys are the union of target and source keys; keys only in the target keep the target value; non-object (scalar or array) source values overwrite |
| Options.MergeDeepObjectValue | horizon-1c-extension/options/options.js:910-914 | an object source value is merged recursively into an existing target value, copied when the target lacks the key, and merged into `{}` (or the own properties of a string or array) when the target value is a non-object |
| Options.MergeDeepNonObject | horizon-1c-extension/options/options.js:906-908 | when either side is not an object, the result is a copy of the target's own properties only |
| Options.MergeDeepEmpty | horizon-1c-extension/options/options.js:906-921 | merging with `{}` on either side returns the other object unchanged |
| Options.MergeDeepSelf | horizon-1c-extension/options/options.js:906-921 | merging an object with itself returns it unchanged |
| Options.MergeDeepIdempotent | horizon-1c-extension/options/options.js:906-925 | on shape-compatible trees, merging the same source a second time changes nothing |
| Options.MergeDeepNotIdempotentOverPrimitive | horizon-1c-extension/options/options.js:910-914 | a concrete pair (`{a:1}`, `{a:{b:true}}`) for which merging twice differs from merging once, because the primitive `1` becomes `{}` |
| Options.MergeDeepSourceWins | horizon-1c-extension/options/options.js:906-921 | on shape-compatible trees, every non-object leaf that the source defines is the value read at that path in the merged tree |
| Options.MergeDeepBuild | horizon-1c-extension/options/options.js:906-921 | the key-by-key loop over the source builds exactly the recursive mergeDeep result |
| Options.SetPath | horizon-1c-extension/options/options.js:931-939 | a successful write returns an object whose keys are the old keys plus the first path key, all other keys untouched |
| Options.GetNestedProperty | horizon-1c-extension/options/options.js:927-929 | a falsy object comes back as it is, and a path without a dot reads that one property; reading a written path back is Options.GetAfterSet |
| Options.SetNestedProperty | horizon-1c-extension/options/options.js:931-939 | only an object is written into: an array takes a named property and a primitive throws; success adds the path's first key and keeps every other key, and a path without a dot writes that key itself; Options.GetAfterSet reads the value back |
| Options.WalkAfterSetPath | horizon-1c-extension/options/options.js:931-939 | after a successful write, walking the written key path yields the written value |
| Options.GetAfterSet | horizon-1c-extension/options/options.js:927-939 | after a successful setNestedProperty(obj, p, v), getNestedProperty(obj, p) is v |
| Options.SetPathSucceeds | horizon-1c-extension/options/options.js:931-939 | the write succeeds whenever every node along the path is an object |
| Options.SetPathCreates | horizon-1c-extension/options/options.js:933-936 | a missing or falsy intermediate key is replaced by a fresh object that holds only the next key |
| Options.SetPathFrame | horizon-1c-extension/options/options.js:931-939 | every path that leaves the written path reads the same value before and after the write |
| Options.DefaultsHaveShape | horizon-1c-extension/options/options.js:4-52 | the default settings tree has the expected top-level keys and object-valued groups |
| Options.Lookup | horizon-1c-extension/options/options.js:393-422 | a settingMap lookup is Some only for an id in the table, with the value listed for it, and None exactly when no entry has that id |
| Options.TablesValid | horizon-1c-extension/options/options.js:373-421 | every path in the toggle and select maps is a top-level key or a group key followed by one field |
| Options.ToggleRef | horizon-1c-extension/options/options.js:373-393 | the toggle lookup result, when present, is a valid settings path |
| Options.SelectRef | horizon-1c-extension/options/options.js:416-422 | the select lookup result, when present, is a valid settings path |
| Options.WriteSetting | horizon-1c-extension/options/options.js:931-939 | writing a mapped path into a settings tree of the expected shape succeeds, keeps the shape, stores the value, and leaves every other top-level key and every other field of the group unchanged |
| Options.UrlPatternMeaning | horizon-1c-extension/options/options.js:808-811 | a URL pattern is valid iff it contains '*' or starts with 'http' |
| Options.IsValidUrlPattern | horizon-1c-extension/options/options.js:808-811 | an https address is valid and the empty pattern is not; Options.UrlPatternMeaning gives the exact condition |
| Options.CapitalizeFirst | horizon-1c-extension/options/options.js:941-943 | the length is kept, the first character is upper-cased and the rest is unchanged |
| Options.CapitalizeFirstIdempotent | horizon-1c-extension/options/options.js:941-943 | capitalising twice is the same as capitalising once |
| Options.OptionsManager.constructor | horizon-1c-extension/options/options.js:4-52 | a fresh manager holds the default settings and default stats, with no unsaved changes |
| Options.OptionsManager.LoadSettings | horizon-1c-extension/options/options.js:63-73 | stored settings, when truthy, are deep-merged over the current settings; the stats and the unsaved flag stay unchanged |
| Options.OptionsManager.LoadStats | horizon-1c-extension/options/options.js:75-84 | stored stats, when truthy, are spread over the current stats; nothing else changes |
| Options.OptionsManager.SaveSettings | horizon-1c-extension/options/options.js:86-100 | the stored settings become the current settings and the unsaved flag is cleared |
| Options.OptionsManager.WriteNested | horizon-1c-extension/options/options.js:931-939 | the settings become the setNestedProperty result when the write succeeds and stay unchanged when it throws or goes through an array; the unsaved flag is untouched |
| Options.WriteIntoGroupOf | horizon-1c-extension/options/options.js:931-939 | a two-part path whose group is an array goes through the array, and one whose group is a truthy primitive throws |
| Options.OptionsManager.UpdateSettingFromToggle | horizon-1c-extension/options/options.js:372-398 | an unmapped toggle id changes nothing; a mapped one writes the checked boolean at its path, which reads back afterwards, and marks the settings unsaved; a write through an array keeps the tree and still marks them unsaved; a write that throws changes nothing |
| Options.OptionsManager.UpdateSettingFromSelect | horizon-1c-extension/options/options.js:415-428 | an unmapped select id changes nothing; a mapped one writes the selected string at its path, which reads back afterwards, and marks the settings unsaved; a write through an array keeps the tree and still marks them unsaved; a write that throws changes nothing |
| Options.OptionsManager.WriteMapped | horizon-1c-extension/options/options.js:393-427 | the shared write step: no path changes nothing; a written path reads back and marks the settings unsaved; a write through an array keeps the tree and marks them unsaved; a throw changes nothing |
| Options.OptionsManager.ResetSettings | horizon-1c-extension/options/options.js:700-759 | without confirmation nothing changes; with it the settings and the stored settings become the defaults, the unsaved flag is cleared, and the preserved stats are spread over the old stats |
| Options.OptionsManager.ToggleOnShapedSettings | horizon-1c-extension/options/options.js:372-398 | a mapped toggle on a well-shaped settings tree always writes successfully and keeps the shape |
| Options.ResetKeepsStats | horizon-1c-extension/options/options.js:704-748 | after reset, installDate, totalTransformations and totalSessions, and every other stats key, read as before |
| Batching.FlattenChunks | horizon-1c-extension/content/horizon-performance.js:219-225 | concatenating the batches gives back the input |
| Batching.ChunkSizes | horizon-1c-extension/content/horizon-performance.js:219-225 | there are no batches exactly for empty input, the count is ceil(n/size), every batch is non-empty and at most size long, and all but the last have exactly size elements |
| Batching.CreateBatches | horizon-1c-extension/content/horizon-performance.js:219-225 | the loop stepping by the batch size builds exactly the slices [i, i+size) |
| Batching.ChunkMembers | horizon-1c-extension/content/horizon-performance.js:219-225 | every element of a batch is an element of the input |
| Batching.FlattenMember | horizon-1c-extension/content/horizon-performance.js:176-191 | every element of a batch is among the flattened results |
| Performance.TableFor | horizon-1c-extension/content/horizon-performance.js:105-117 | a mode has an optimization table exactly when it is 'high', 'balanced' or 'battery' |
| Performance.Entries | horizon-1c-extension/content/horizon-performance.js:119-153 | every mode table writes exactly the five keys animations, shadows, gradients, transforms and observerThrottle |
| Performance.Vars | horizon-1c-extension/content/horizon-performance.js:126-150 | every mode sets the animation-duration variable; the transition-timing variable is set exactly when the mode has one (not in battery mode); no other root variable is written |
| Performance.ModeTableFacts | horizon-1c-extension/content/horizon-performance.js:119-153 | observerThrottle is 0, 100 and 500; animations are off only in battery mode; transforms are on only in high mode; the reduced-motion class only in battery mode; shadows and gradients follow animations |
| Performance.BatchSize | horizon-1c-extension/content/horizon-performance.js:201-208 | the batch size is positive: 50 for high, 10 for battery, 25 for balanced and any other mode |
| Performance.BatchDelay | horizon-1c-extension/content/horizon-performance.js:210-217 | the delay is 0 for high, 33 for battery, 16 for balanced and any other mode |
| Performance.BatchingMonotone | horizon-1c-extension/content/horizon-performance.js:201-217 | batch sizes strictly fall and delays strictly rise from high to balanced to battery; an unknown mode batches like balanced |
| Performance.Element.constructor | horizon-1c-extension/content/horizon-performance.js:227-234 | a fresh element holds the given willChange style |
| Performance.PerformanceManager.constructor | horizon-1c-extension/content/horizon-performance.js:4-18 | the manager starts in balanced mode with an empty optimization map and no notifications |
| Performance.PerformanceManager.EnableMode | horizon-1c-extension/content/horizon-performance.js:119-153 | applying a mode table overwrites its five entries, sets its root variables, adds the reduced-motion class only when the table asks for it, and leaves the mode unchanged |
| Performance.PerformanceManager.ApplyPerformanceOptimizations | horizon-1c-extension/content/horizon-performance.js:105-117 | a known mode applies its table; an unrecognised mode leaves the optimizations and the page unchanged |
| Performance.PerformanceManager.LoadPerformanceSettings | horizon-1c-extension/content/horizon-performance.js:27-37 | a stored non-empty mode replaces the current mode and then applies its table; no stored mode changes nothing |
| Performance.PerformanceManager.HandleHighMemoryUsage | horizon-1c-extension/content/horizon-performance.js:265-278 | outside battery mode the battery table's variables are added to the root variables and exactly the memory notice is appended; in battery mode nothing changes; the mode and the injected styles never change |
| Performance.PerformanceManager.HandleLowFPS | horizon-1c-extension/content/horizon-performance.js:280-290 | the low-performance class is always added; only in high mode the balanced table's variables are added to the root variables and exactly the FPS notice is appended; the mode and the injected styles never change |
| Performance.PerformanceManager.ProcessElement | horizon-1c-extension/content/horizon-performance.js:227-234 | the element is returned; its willChange is set to the hint exactly when the transforms optimization is on, and kept otherwise |
| Performance.PerformanceManager.ProcessBatch | horizon-1c-extension/content/horizon-performance.js:177-179 | the per-batch results are the batch itself, each element processed as processElement does |
| Performance.PerformanceManager.ProcessBatches | horizon-1c-extension/content/horizon-performance.js:176-191 | processing the batches one after another yields the flattened element list |
| Performance.PerformanceManager.OptimizeElementProcessing | horizon-1c-extension/content/horizon-performance.js:170-199 | the resolved results are the input elements in input order (empty for empty input), each one processed |
| Accessibility.JsRem | horizon-1c-extension/content/horizon-accessibility.js:149 | JavaScript's remainder for integral operands takes the sign of the dividend: in [0, n) for a non-negative dividend |
| Accessibility.NextAsWritten | horizon-1c-extension/content/horizon-accessibility.js:147-150 | with no focusable elements the index becomes NaN; otherwise an index from -1 on moves into [0, n) |
| Accessibility.NaNIsSticky | horizon-1c-extension/content/horizon-accessibility.js:147-157 | one Tab press with nothing focusable leaves NaN, and every later sequence of Tab and Shift+Tab presses stays at NaN |
| Accessibility.NavigateFromNaN | horizon-1c-extension/content/horizon-accessibility.js:147-157 | from NaN, next and previous both keep NaN |
| Accessibility.NextIndex | horizon-1c-extension/content/horizon-accessibility.js:147-150 | the corrected next index is in [0, n) from -1 on, and unchanged when nothing is focusable |
| Accessibility.PreviousIndex | horizon-1c-extension/content/horizon-accessibility.js:152-157 | previous wraps to n-1 from the first element or from -1, and stays in [0, n) |
| Accessibility.CorrectedAgrees | horizon-1c-extension/content/horizon-accessibility.js:147-157 | whenever something is focusable, the corrected functions agree with the code as written |
| Accessibility.NextPreviousInverse | horizon-1c-extension/content/horizon-accessibility.js:147-157 | within range, next and previous undo each other |
| Accessibility.AccessibilityManager.constructor | horizon-1c-extension/content/horizon-accessibility.js:4-19 | the manager starts with no focusable elements, index -1, nothing focused and the default settings |
| Accessibility.AccessibilityManager.UpdateFocusableElements | horizon-1c-extension/content/horizon-accessibility.js:119-132 | the focusable list becomes the found elements and the index is kept |
| Accessibility.AccessibilityManager.FocusAt | horizon-1c-extension/content/horizon-accessibility.js:169-180 | an index inside the list focuses that element; any other index focuses nothing new |
| Accessibility.AccessibilityManager.FocusNext | horizon-1c-extension/content/horizon-accessibility.js:147-150 | the index becomes the corrected next index (unchanged on an empty list, where the source stores NaN) and, when the list is non-empty, lies in range and that element is focused |
| Accessibility.AccessibilityManager.FocusPrevious | horizon-1c-extension/content/horizon-accessibility.js:152-157 | the index becomes the previous index and, when the list is non-empty, lies in range and that element is focused |
| Accessibility.AccessibilityManager.FocusFirst | horizon-1c-extension/content/horizon-accessibility.js:159-162 | the index becomes 0 and the first element, if any, is focused |
| Accessibility.AccessibilityManager.FocusLast | horizon-1c-extension/content/horizon-accessibility.js:164-167 | the index becomes n-1 and the last element, if any, is focused |
| Accessibility.AccessibilityManager.UpdateSettings | horizon-1c-extension/content/horizon-accessibility.js:652-655 | the supplied keys override, every other key keeps its value, and the visual features are applied from the new settings |
| Accessibility.AccessibilityManager.ApplyAccessibilityFeatures | horizon-1c-extension/content/horizon-accessibility.js:552-627 | the high-contrast and reduced-motion classes follow the settings, their styles are injected once, and the font-size variable is set |
| Accessibility.ApplyStylesIdempotent | horizon-1c-extension/content/horizon-accessibility.js:558-615 | applying the features twice injects no second copy of either style sheet |
| Accessibility.FontSizeFor | horizon-1c-extension/content/horizon-accessibility.js:617-627 | the size is looked up by the value's property-key text (so a one-element array finds its element's size), is one of four rem values, and 1rem for any key outside the table |
| Accessibility.WrappedSizeFound | horizon-1c-extension/content/horizon-accessibility.js:617-627 | a one-element array of a size name gets the same font size as the name itself |
| Accessibility.FontSizesOrdered | horizon-1c-extension/content/horizon-accessibility.js:617-627 | small, normal, large and extra-large map to 0.875, 1, 1.125 and 1.25 rem |
| Accessibility.MenuTarget | horizon-1c-extension/content/horizon-accessibility.js:269-297 | the target is another in-range item, and there is none for keys other than the two arrows or for a single-item menu |
| Accessibility.MenuWraps | horizon-1c-extension/content/horizon-accessibility.js:279-296 | ArrowUp from the first item goes to the last, ArrowDown from the last to the first, and each arrow undoes the other |
| Accessibility.IconDescription | horizon-1c-extension/content/horizon-accessibility.js:356-378 | the result is 'Кнопка' iff no table key is contained in the lower-cased class name; otherwise it is the description of the first contained key |
| Accessibility.ElementLabel | horizon-1c-extension/content/horizon-accessibility.js:433-456 | the first label wins, then the aria-label whenever the attribute is present (even empty), then the trimmed text of the labelled-by element when one is found, then a non-empty placeholder, the name, and finally 'Поле ввода' |
| Accessibility.ElementDescription | horizon-1c-extension/content/horizon-accessibility.js:458-508 | the description is the label, the tag part, then ', обязательное' when required and ', недоступно' when disabled |
| Accessibility.DescriptionShape | horizon-1c-extension/content/horizon-accessibility.js:458-508 | the description starts with the label and ends with the disabled mark when disabled, else with the required mark when required |
| Background.Is1CTab | horizon-1c-extension/background/background.js:357-370 | a tab is a 1C tab iff it has a non-empty URL containing one of the six patterns |
| Background.Is1CTabPatterns | horizon-1c-extension/background/background.js:357-370 | each pattern alone is recognised; a missing or empty URL never is |
| Background.Migrated | horizon-1c-extension/background/background.js:85-110 | migration succeeds exactly on an object or an array; an array is stored as it was, and an object keeps every existing truthy group and every other key, with a missing or falsy accessibility or advanced group filled with its defaults |
| Background.MigratedIdempotent | horizon-1c-extension/background/background.js:85-110 | migrating migrated settings changes nothing |
| Background.Toggled | horizon-1c-extension/background/background.js:150-156 | toggling succeeds exactly on an object or an array; an object gets only enabled replaced by the negation of its truthiness, and an array is stored as it was |
| Background.FlippedFlag | horizon-1c-extension/background/background.js:154 | the new flag is a boolean that is true exactly when the old flag was falsy |
| Background.ArrayToggleEnables | horizon-1c-extension/background/background.js:150-156 | stored settings that are an array are kept as they are by the toggle, while the tab is told a boolean flag |
| Background.ToggledTwice | horizon-1c-extension/background/background.js:150-156 | a missing flag becomes true, and toggling twice restores the flag's truth value with every other key unchanged |
| Background.Incremented | horizon-1c-extension/background/background.js:301 | a stored number goes up by one, null counts as 0, and undefined becomes NaN (stored as null) |
| Background.StatsAfterTransformation | horizon-1c-extension/background/background.js:292-305 | with a stored stats object, transformedPages is incremented, lastUsed becomes the current time and every other key is kept; a stored array is stored as it was; with nothing stored or a primitive stored the update throws |
| Background.StatsCountPages | horizon-1c-extension/background/background.js:292-305 | two transformations add two to the page count; with nothing stored no count is ever started |
| Background.BoundLog | horizon-1c-extension/background/background.js:285-287 | the bounded log is a suffix of the log of at most 100 entries: unchanged up to 100, the last 50 beyond |
| Background.ErrorEntry | horizon-1c-extension/background/background.js:276-282 | the pushed entry has exactly the keys tabId, error, stack, timestamp and url |
| Background.LoggedErrors | horizon-1c-extension/background/background.js:271-290 | the new log exists exactly when an array is stored, and is the stored log plus the new entry, bounded |
| Background.LoggedErrorsKeepNewest | horizon-1c-extension/background/background.js:276-287 | every report leaves a non-empty log of at most 100 entries ending with the new one; below 100 nothing is dropped, otherwise the last 50 stay |
| Background.FirstErrorReportThrows | horizon-1c-extension/background/background.js:273 | with no log stored the report is lost: the empty-log fallback never applies |
| Background.FreshMetricsExact | horizon-1c-extension/background/background.js:346-355 | a tab keeps its metrics iff they have not expired, kept entries are unchanged, and a second cleanup removes nothing more |
| Background.ExpiresAfterMaxAge | horizon-1c-extension/background/background.js:348-351 | an entry stamped at ts expires exactly when more than 300000 ms have passed |
| Background.MergedMetric | horizon-1c-extension/background/background.js:258-263 | the merged entry has the existing keys, the report's keys and the timestamp; report values override existing ones and the timestamp is now |
| Background.RecordedMetricIsFresh | horizon-1c-extension/background/background.js:346-355 | a metric recorded now is not removed by a cleanup now |
| Background.AutoActivationNeeds | horizon-1c-extension/background/background.js:323-339 | no activation request without truthy stored settings, on a tab that is not a 1C tab, before the load completes, without an enabled flag or with autoDetect false |
| Background.BackgroundService.constructor | horizon-1c-extension/background/background.js:4-8 | the service starts with no per-tab transformations or metrics and nothing sent |
| Background.BackgroundService.SetDefaultSettings | horizon-1c-extension/background/background.js:55-77 | the install defaults are stored under horizonSettings and nothing else changes |
| Background.BackgroundService.HandleUpdate | horizon-1c-extension/background/background.js:85-110 | truthy stored settings are replaced by their migrated form; otherwise nothing changes |
| Background.BackgroundService.HandleInstallation | horizon-1c-extension/background/background.js:44-53 | an install stores the defaults, an update migrates, any other reason changes nothing |
| Background.BackgroundService.ToggleHorizonUI | horizon-1c-extension/background/background.js:150-165 | the stored settings, or `{}` when none, are toggled and stored, and the tab is told the flipped flag (also for a stored array, which keeps its contents); a primitive that cannot take the flag changes nothing |
| Background.BackgroundService.HandleTabUpdate | horizon-1c-extension/background/background.js:323-339 | autoActivate is sent to the tab exactly when the load completed on a 1C tab whose stored settings enable both the extension and auto-detection |
| Background.BackgroundService.CleanupTab | horizon-1c-extension/background/background.js:341-344 | a closed tab loses its transformation and metrics entries and nothing else changes |
| Background.BackgroundService.CleanupOldMetrics | horizon-1c-extension/background/background.js:346-355 | the loop over the metrics leaves exactly the entries that have not expired |
| Background.BackgroundService.HandlePageTransformed | horizon-1c-extension/background/background.js:247-252 | the tab's transformation entry becomes the reported data stamped with the current time |
| Background.BackgroundService.UpdateTransformationStats | horizon-1c-extension/background/background.js:292-305 | the stats are replaced by the updated stats when an object or an array is stored; otherwise the update fails and nothing is stored |
| Background.BackgroundService.RecordMetrics | horizon-1c-extension/background/background.js:258-263 | the tab's metrics become the existing entry (or `{}`) overlaid with the report and the timestamp |
| Background.BackgroundService.AdviseIfSlow | horizon-1c-extension/background/background.js:266-268 | the optimisation advice is sent exactly when the reported transformationTime exceeds 2000 |
| Background.BackgroundService.HandlePerformanceReport | horizon-1c-extension/background/background.js:257-269 | the metrics are merged even for a missing report; reading the report then fails exactly when it is nullish; the advice is sent only for a slow transformation |
| Background.BackgroundService.HandleErrorReport | horizon-1c-extension/background/background.js:271-290 | the log is extended and bounded exactly when an array is stored, the error is not nullish and the tab has a URL; otherwise nothing is stored |
| Background.BackgroundService.HandleMessage | horizon-1c-extension/background/background.js:210-245 | a nullish request throws; getSettings replies with the stored settings; updateStats always throws; pageTransformed records the stamped data for the sender tab and stores the updated statistics, replying success exactly when they are an object or an array; performanceReport merges the metric, replies according to the data and suggests battery mode for a slow transform; errorReport appends the entry exactly when the log is an array, the sender tab and its url are known and the error is present; an unknown action replies with an error; a message without a sender tab changes no per-tab state |
| Components.AssignedEntries | content/horizon-components.js:741-746 | after a sequence of set calls every named key is present, holding the value of its last call |
| Components.AssignedOthers | content/horizon-components.js:741-746 | a key no call names keeps its earlier value, or stays absent |
| Components.FirstUndefined | content/horizon-components.js:16-33 | the index of the first registration whose class is not defined: all earlier ones are defined |
| Components.RegistryComplete | content/horizon-components.js:16-33 | with every class defined, exactly the fifteen component types are registered |
| Components.RegistryAsDeclared | content/horizon-components.js:16-33 | with only the classes the file declares, the fourth registration (HorizonTable) throws and only card, button and input are registered |
| Components.Library.constructor | content/horizon-components.js:4-14 | the registry holds the registrations before the first undefined class, the constructor throws exactly when one is undefined, and the global styles are injected only when it does not throw |
| Components.Library.RegisterComponents | content/horizon-components.js:16-33 | the fifteen registrations in order up to the first undefined class, throwing exactly then |
| Components.Library.RegisterInOrder | content/horizon-components.js:16-33 | running any list of registrations in order registers the prefix before the first undefined class |
| Components.Library.CreateComponent | content/horizon-components.js:35-42 | a component is created exactly for a registered type, from its registered class; otherwise null |
| Components.CreateWhenComplete | content/horizon-components.js:16-42 | once every class is defined, createComponent succeeds exactly for the fifteen types |
| Components.ComponentOptions | content/horizon-components.js:114-121 | a subclass's options are its defaults overridden by className and id, in turn overridden by the caller's own properties |
| Components.OptionClass | content/horizon-components.js:337-355 | the class looked up for an option is always one of the table's classes |
| Components.ChosenClass | content/horizon-components.js:337-355 | an option the caller leaves out gets the subclass default's class; one the caller gives is looked up, falling back to the default |
| Components.CardDefaultClass | content/horizon-components.js:189-232 | a card without a variant gets horizon-card-default |
| Components.ButtonDefaultVariant | content/horizon-components.js:305-346 | a button without a variant gets horizon-button-primary |
| Components.ButtonDefaultSize | content/horizon-components.js:305-355 | a button without a size gets horizon-button-md |
| Components.InputDefaultSize | content/horizon-components.js:503-566 | an input without a size gets horizon-input-md |
| Components.InputDefaultVariant | content/horizon-components.js:503-575 | an input without a variant gets horizon-input-default |
| Components.ButtonParts | content/horizon-components.js:357-369 | the button shows a spinner iff loading, else an icon iff one is given, and always the text last |
| Components.Component.Plain | content/horizon-components.js:114-122 | a base component has no element, is not mounted, and its options are className and id overridden by the caller's |
| Components.Component.Card | content/horizon-components.js:189-236 | a card has a detached element, the card options, and its style block injected at most once |
| Components.Component.Button | content/horizon-components.js:305-379 | a button has the button options, the parts for them, disabled following the option, and its style block injected at most once |
| Components.Component.Input | content/horizon-components.js:503-579 | an input has the input options and its style block injected at most once |
| Components.Component.Mount | content/horizon-components.js:132-139 | mounting with an element and a parent mounts into that parent; otherwise nothing changes |
| Components.Component.Unmount | content/horizon-components.js:141-148 | unmounting an element with a parent detaches it; otherwise nothing changes |
| Components.Component.SetLoading | content/horizon-components.js:487-492 | the loading option is set, disabled follows its truthiness, the content is redrawn, and the spinner shows exactly when disabled |
| Components.Component.VariantClass | content/horizon-components.js:337-346 | the variant class is one of the component kind's variant classes |
| Components.Component.SizeClass | content/horizon-components.js:348-355 | the size class is one of the component kind's size classes |
| Components.MountThenUnmount | content/horizon-components.js:132-148 | mounting into a parent and then unmounting leaves the component detached and unmounted |
| Components.TwoCardsTwoLibraries | content/horizon-components.js:4-14 | creating cards leaves exactly one card style block, while each library instance adds the global block again |
| Components.ThemeManager.constructor | content/horizon-components.js:716-732 | the theme manager starts with the light theme |
| Components.ThemeManager.SetTheme | content/horizon-components.js:734-739 | a value whose property-key text names a known theme becomes current as given (an array such as ["dark"] stays an array) and that theme's properties are set on the root; any other value changes nothing |
| Components.ThemeManager.ApplyTheme | content/horizon-components.js:741-746 | each property of the theme is set on the root, in order |
| Components.ThemeManager.GetTheme | content/horizon-components.js:748-750 | the value last stored is returned, and its property-key text is 'light' or 'dark' |
| Components.AnimationManager.constructor | content/horizon-components.js:755-757 | animations start enabled |
| Components.AnimationManager.SetAnimationsEnabled | content/horizon-components.js:759-765 | the value is stored as given and the duration property is 0.2s when it is truthy, else 0s |
| Components.AnimationManager.FadeIn | content/horizon-components.js:767-776 | with animations off nothing changes; otherwise the element starts transparent with an opacity transition of the given duration |
| Components.AnimationManager.SlideIn | content/horizon-components.js:778-794 | with animations off nothing changes; otherwise the element starts at the offset of its direction, of the left side when none is passed, with a transform transition of the given duration; an unknown direction keeps the old transform |
| Welcome.Int32 | horizon-1c-extension/welcome/welcome.js:178-180 | the 32-bit conversion of the shift operators lands in [-2^31, 2^31) and keeps every value already there |
| Welcome.LowByte | horizon-1c-extension/welcome/welcome.js:179-180 | masking with 0xFF gives a value in [0, 256) |
| Welcome.NumberToHex | horizon-1c-extension/welcome/welcome.js:310-312 | toString(16) always yields at least one digit |
| Welcome.HexToRgb | horizon-1c-extension/welcome/welcome.js:301-308 | hexToRgb gives channels exactly for an optional '#' followed by six hexadecimal digits (either case), and the channels are in [0, 255] |
| Welcome.RgbToHexValue | horizon-1c-extension/welcome/welcome.js:310-312 | for in-range channels the shifted sum is the plain channel number, written as the same '#rrggbb' text that adjustColorBrightness builds |
| Welcome.RgbToHex | horizon-1c-extension/welcome/welcome.js:310-312 | the text starts with '#', and in-range channels give seven characters; Welcome.HexRoundTrip shows that hexToRgb reads them back |
| Welcome.RgbToHexShape | horizon-1c-extension/welcome/welcome.js:310-312 | in-range channels give '#' followed by two lowercase digits per channel |
| Welcome.PairsRead | horizon-1c-extension/welcome/welcome.js:301-308 | '#' with three two-digit pairs reads back as those channels |
| Welcome.HexRoundTrip | horizon-1c-extension/welcome/welcome.js:301-312 | hexToRgb(rgbToHex(r, g, b)) gives back (r, g, b) for every in-range triple |
| Welcome.Clamp | horizon-1c-extension/welcome/welcome.js:182-184 | the nested conditional clamps to [0, 255], keeping in-range values |
| Welcome.Brightened | horizon-1c-extension/welcome/welcome.js:175-186 | each channel of the adjusted colour is the shifted or masked part of the parsed number plus the amount, clamped |
| Welcome.ChannelsHexIsColour | horizon-1c-extension/welcome/welcome.js:301-312 | the text adjustColorBrightness builds from in-range channels is seven characters, equals rgbToHex of them, and reads back as them |
| Welcome.AdjustedIsColour | horizon-1c-extension/welcome/welcome.js:175-186 | the adjusted colour is always a valid '#rrggbb' colour that hexToRgb reads back as the clamped channels |
| Welcome.AdjustColorBrightness | horizon-1c-extension/welcome/welcome.js:175-186 | the result is always seven characters starting with '#'; Welcome.AdjustedIsColour shows that it is the `#rrggbb` form of the clamped, brightened channels, which hexToRgb reads back |
| Welcome.UnreadableExample | horizon-1c-extension/welcome/welcome.js:177 | '#zz' is a text parseInt cannot read |
| Welcome.BrightenedUnreadable | horizon-1c-extension/welcome/welcome.js:177-181 | a text parseInt cannot read (NaN, which the shifts turn into 0) is brightened from black |
| Welcome.AdjustUnreadable | horizon-1c-extension/welcome/welcome.js:175-186 | adjusting an unreadable text gives the grey of the clamped amount |
| Welcome.NotificationIcon | horizon-1c-extension/welcome/welcome.js:422-430 | success, error and warning have their icons; every other type gets the info icon |
| Welcome.Saved | horizon-1c-extension/welcome/welcome.js:188-204 | saving writes only the horizonSettings entry and keeps every other synced entry |
| Welcome.SavedOverlay | horizon-1c-extension/welcome/welcome.js:191-195 | the saved tree has the stored keys plus the page's keys, the page's values winning and every other stored value kept |
| Welcome.SavedTwice | horizon-1c-extension/welcome/welcome.js:188-204 | saving twice stores the same as saving once |
| Welcome.WelcomePage.constructor | horizon-1c-extension/welcome/welcome.js:4-12 | the page starts with the light theme, the default accent colour and balanced performance, nothing selected and no theme attribute on the document |
| Welcome.WelcomePage.LoadCurrentSettings | horizon-1c-extension/welcome/welcome.js:20-30 | truthy stored settings are spread over the page's settings, each option group marks exactly the option equal to its setting, and the accent colour is applied to the root variables; otherwise nothing changes |
| Welcome.Marked | horizon-1c-extension/welcome/welcome.js:34-57 | an option group marks an option exactly when the setting is a string equal to one of the offered values, and the marked value is the setting |
| Welcome.AccentVars | horizon-1c-extension/welcome/welcome.js:168-174 | the primary colour takes the text of the accent setting, the secondary colour its brightened form when it is a string, and every other root variable is kept |
| Welcome.LoadedAccentAsChosen | horizon-1c-extension/welcome/welcome.js:59-60 | applying a loaded colour sets the same two root variables as choosing it |
| Welcome.WelcomePage.UpdateUI | horizon-1c-extension/welcome/welcome.js:32-60 | each option group marks exactly the option equal to its setting and the accent colour is applied to the root variables; the settings are not changed |
| Welcome.WelcomePage.ApplyAccentColor | horizon-1c-extension/welcome/welcome.js:167-173 | the root variables become exactly those AccentVars gives for the accent; the root classes and styles are unchanged |
| Welcome.WelcomePage.SaveSettings | horizon-1c-extension/welcome/welcome.js:188-204 | the synced settings become the saved overlay and nothing else changes |
| Welcome.WelcomePage.SelectTheme | horizon-1c-extension/welcome/welcome.js:115-127 | the marks are cleared first; the lookup succeeds exactly for an offered theme or the theme already applied; once applied, the document element takes the mark and no option does; otherwise the offered theme is marked; on success the theme is stored, applied (dark-theme body class exactly for 'dark') and saved; a failed lookup changes nothing else |
| Welcome.WelcomePage.SelectColor | horizon-1c-extension/welcome/welcome.js:129-141 | the marks are cleared first; an offered colour is marked and becomes the accent and the primary colour, the secondary colour is its brightened form, and the settings are saved; any other colour throws, leaving no colour marked and nothing else changed |
| Welcome.WelcomePage.SelectPerformance | horizon-1c-extension/welcome/welcome.js:143-155 | the marks are cleared first; an offered mode is marked, stored and saved; any other mode throws, leaving no mode marked and nothing else changed |
| LastUsed.Bucket | popup/popup.js:418-430 | never for a falsy lastUsed; otherwise just now under a minute, whole minutes under an hour, whole hours under a day, and the date from a day on (or for an unreadable date) |
| LastUsed.FormatLastUsed | popup/popup.js:418-430 | a falsy lastUsed reads 'Никогда' |
| LastUsed.BucketMonotone | popup/popup.js:418-430 | as time passes the text only moves forward from just now through the minutes and hours to the date |
| LastUsed.RenderDistinct | popup/popup.js:418-430 | two different buckets other than the date always render differently |
| Popup.Is1CUrl | popup/popup.js:408-416 | a URL is a 1C URL iff it contains '/hs/v8reader/', 'clobus.uz', '1cfresh.com' or 'localhost' |
| Popup.Is1CUrlOfPattern | popup/popup.js:408-416 | any text around one of the fragments is a 1C URL |
| Popup.SpreadStored | popup/popup.js:34-54 | a falsy stored value changes nothing; a truthy one gives an object of the current and stored own keys, stored values winning |
| Popup.SpreadStoredIdempotent | popup/popup.js:34-54 | loading the same stored tree twice is loading it once |
| Popup.LoadKeepsDefaults | popup/popup.js:4-43 | whatever is stored, every default key survives the load and keeps its default unless the stored tree names it |
| Popup.IndicatorRule | popup/popup.js:365-379 | the indicator depends on enabled only through its truthiness and its two states differ; the created indicator matches the updated one |
| Popup.StatusIndicator | popup/popup.js:365-379 | the indicator is the one createStatusIndicator builds, and it is the active one exactly when enabled is truthy |
| Popup.ClearedStatsRender | popup/popup.js:477-492 | the texts shown after clearing ('0', '0', 'Никогда') are what the cleared stats themselves render to |
| Popup.JustRecorded | popup/popup.js:395-406 | right after a use is recorded the popup says 'Только что' |
| Popup.HorizonPopup.constructor | popup/popup.js:4-23 | the popup starts with the default settings and stats, nothing shown or reloaded, no accent variable and neither body class |
| Popup.HorizonPopup.Init | popup/popup.js:25-32 | init loads both stored entries over the defaults, draws the indicator and the last-use line from them, and applies the accent variable and the dark-theme and compact-mode body classes |
| Popup.HorizonPopup.ApplySettingsToUI | popup/popup.js:494-507 | the accent colour becomes the accent variable when it has a text, and the dark-theme and compact-mode classes are added, never removed, exactly as theme and compactMode ask |
| Popup.HorizonPopup.LoadSettings | popup/popup.js:34-43 | truthy stored settings are spread over the current ones; nothing else changes |
| Popup.HorizonPopup.LoadStats | popup/popup.js:45-54 | truthy stored stats are spread over the current ones; nothing else changes |
| Popup.HorizonPopup.SaveSettings | popup/popup.js:56-65 | the settings are stored and the success notice is shown; nothing else changes |
| Popup.HorizonPopup.SaveStats | popup/popup.js:67-73 | the stats are stored and nothing else changes |
| Popup.HorizonPopup.UpdateStatusIndicator | popup/popup.js:365-379 | the indicator follows the truthiness of enabled; nothing else changes |
| Popup.HorizonPopup.OnEnableChange | popup/popup.js:261-265 | enabled takes the switch's value, the indicator follows it and the settings are stored; nothing else changes |
| Popup.HorizonPopup.OnControlChange | popup/popup.js:267-304 | a known control writes its setting and stores the settings; an unknown one changes nothing; nothing else changes in either case |
| Popup.HorizonPopup.ResetSettings | popup/popup.js:432-448 | once confirmed exactly the eight defaults are put back, stored, and the popup reloads; otherwise nothing changes; the shown counters, the accent variable and the body classes stay as they were |
| Popup.HorizonPopup.ClearStats | popup/popup.js:477-492 | once confirmed both counters go to 0 and lastUsed to null, stored and shown as '0', '0' and 'Никогда'; otherwise nothing changes; the settings, the accent variable and the body classes stay as they were |
| Popup.HorizonPopup.CheckCurrentTab | popup/popup.js:395-406 | on a 1C tab lastUsed becomes the current time, is stored and shown; otherwise nothing changes; the counters, the accent variable and the body classes stay as they were |
| ExtPopup.Is1CUrl | horizon-1c-extension/popup/popup.js:252-262 | a URL is a 1C URL iff it contains one of '/hs/v8reader/', 'clobus.uz', '1cfresh.com', '/ws/', '/ru_RU/' and '/en_US/' |
| ExtPopup.AgreesWithBackground | horizon-1c-extension/popup/popup.js:252-262 | on every URL this popup's test agrees with the background worker's tab test |
| ExtPopup.PopupsDisagree | horizon-1c-extension/popup/popup.js:252-262 | the two popups disagree: only this one accepts '/ws/', only the other accepts 'localhost' |
| ExtPopup.PerformanceScore | horizon-1c-extension/popup/popup.js:264-268 | the score is always 95%, 85% or 75% |
| ExtPopup.PerformanceScoreTable | horizon-1c-extension/popup/popup.js:264-268 | 95% exactly for high, 75% exactly for battery, and any mode without an optimization table scores like balanced |
| ExtPopup.DefaultsCompared | horizon-1c-extension/popup/popup.js:4-27 | against the other popup, the defaults drop customCSS and add the accessibility group; shared keys and the stats defaults agree |
| ExtPopup.AccessibilityReplaced | horizon-1c-extension/popup/popup.js:320-342 | loading or importing a tree that has an accessibility value replaces the whole group |
| ExtPopup.PartialAccessibility | horizon-1c-extension/popup/popup.js:84-129 | a tree naming only highContrast loses fontSize and reducedMotion; a null group makes reading it nullish |
| ExtPopup.StatusRule | horizon-1c-extension/popup/popup.js:91-101 | the indicator and the detail line change exactly when the truthiness of enabled does |
| ExtPopup.HorizonPopup.constructor | horizon-1c-extension/popup/popup.js:4-27 | the popup starts with its default settings and stats, the given palette, an undrawn form, nothing shown and no handlers bound |
| ExtPopup.HorizonPopup.UpdateUI | horizon-1c-extension/popup/popup.js:84-129 | the status is drawn from enabled and the form follows DrawnControls; drawing throws exactly when the accessibility group is nullish, otherwise the score and last-use texts are drawn |
| ExtPopup.ContentText | horizon-1c-extension/popup/popup.js:125-126 | a counter shows a number's digits, "" for null and a string as it is; only objects and arrays are not modelled |
| ExtPopup.CounterReadsBack | horizon-1c-extension/popup/popup.js:125-126 | the text shown for a count reads back as that count |
| ExtPopup.DrawnMainChecks | horizon-1c-extension/popup/popup.js:104-107 | the first four checkboxes show the truthiness of enabled, animations, compactMode and autoDetect |
| ExtPopup.DrawnUpToThrow | horizon-1c-extension/popup/popup.js:104-108 | with a nullish accessibility group drawing stops after those four checkboxes and nothing else in the form changes |
| ExtPopup.DrawnControlsShow | horizon-1c-extension/popup/popup.js:108-120 | otherwise the accessibility checkboxes show their truthiness, the three selects the theme, performance and font size, and the palette marks exactly the option whose colour is the accent |
| ExtPopup.DrawnCounters | horizon-1c-extension/popup/popup.js:125-126 | the two counters show the stored numbers of transformed pages and sessions |
| ExtPopup.HorizonPopup.Init | horizon-1c-extension/popup/popup.js:29-35 | both stored entries are loaded and the status and the form are drawn (DrawnControls); the score and last-use texts are drawn and the handlers bound exactly when drawing did not throw |
| ExtPopup.HorizonPopup.SaveSettings | horizon-1c-extension/popup/popup.js:59-68 | the settings are stored and the saved notice is shown; nothing else changes |
| ExtPopup.HorizonPopup.OnEnableChange | horizon-1c-extension/popup/popup.js:133-137 | enabled follows the switch and the page is redrawn: status and form, and the score and last-use texts unless drawing throws; the settings are stored only when the redraw did not throw |
| ExtPopup.HorizonPopup.OnControlChange | horizon-1c-extension/popup/popup.js:140-174 | a known top-level control writes its setting and stores the settings; an unknown one changes nothing; nothing drawn changes |
| ExtPopup.HorizonPopup.OnAccessibilityChange | horizon-1c-extension/popup/popup.js:176-189 | an accessibility control writes into an object group and stores; for an array group only the store happens; a primitive or missing group throws and nothing changes; nothing drawn changes |
| ExtPopup.HorizonPopup.ResetSettings | horizon-1c-extension/popup/popup.js:284-304 | once confirmed the default tree is restored, stored and drawn (status active, the form as drawn from the defaults, score 85%); otherwise nothing changes |
| ExtPopup.HorizonPopup.ImportSettings | horizon-1c-extension/popup/popup.js:320-342 | unparseable text shows the error notice and nothing else changes; a confirmed import spreads the parsed tree over the settings, stores it, redraws the status, the form and (unless drawing throws) the score and last-use texts, then shows success, or the error notice when the redraw throws |
| ExtPopup.HorizonPopup.ApplyImported | horizon-1c-extension/popup/popup.js:331-335 | the confirmed import: the parsed tree is spread over the settings and stored, the page is redrawn, and the toast tells how the redraw ended |
| ExtPopup.HorizonPopup.RedrawWithToast | horizon-1c-extension/popup/popup.js:334-335 | the redraw, then the success toast, or the import error when drawing throws; the settings and storage are untouched |
| ExtPopup.HorizonPopup.CheckCurrentTab | horizon-1c-extension/popup/popup.js:239-250 | on a 1C tab lastUsed becomes now and is stored, and the status, the form and (unless drawing throws) the score and last-use texts are redrawn; otherwise nothing changes |
| ContentDom.DetectPageType | horizon-1c-extension/content/content.js:88-94 | the page type is list iff the list table is present, main iff the main frame is and no list table, form, report and generic likewise by the first marker found in that order |
| ContentDom.Switch | horizon-1c-extension/content/content.js:55-70 | the switch runs the transformation of a page type that has one and throws on a type that has none |
| ContentDom.SwitchThrowsAsWritten | horizon-1c-extension/content/content.js:55-70 | as written, transform throws exactly on a page with none of the list, main-frame and form markers, that is on report and generic pages |
| ContentDom.CorrectedSwitchRuns | horizon-1c-extension/content/content.js:55-70 | with a transformation for every type every page is transformed, and on list, main and form pages the corrected switch does what the source does |
| ExtContent.Is1CPage | horizon-1c-extension/content/content.js:79-86 | a page is a 1C page iff it has a data-vl-sdt element, the main frame or the system command bar, or its address contains 'v8reader' or 'clobus' |
| ExtContent.ListOrFormAloneNotDetected | horizon-1c-extension/content/content.js:79-94 | a page with only a list table, a dynamic form or a report panel, at another address, is not a 1C page, although the page-type test knows those markers |
| ExtContent.MapIconToHorizon | horizon-1c-extension/content/content.js:549-563 | the icon is that of the lower-cased text when it is a key of the eight-entry table, and '📌' otherwise |
| ExtContent.MapIconIgnoresCase | horizon-1c-extension/content/content.js:549-563 | the lookup ignores letter case |
| ExtContent.FilterMap | horizon-1c-extension/content/content.js:248-257 | keeping and mapping some elements never lengthens the list |
| ExtContent.FilterMapEmpty | horizon-1c-extension/content/content.js:248-257 | nothing is kept exactly when no element passes the test |
| ExtContent.Extract1CMenu | horizon-1c-extension/content/content.js:242-271 | the items are those of the links with non-blank text, in order, and the five defaults when there are none |
| ExtContent.ExtractLabelText | horizon-1c-extension/content/content.js:537-547 | a for-label's text wins, untrimmed; otherwise the placeholder, the name or 'Поле', never empty |
| ExtContent.LabelRevisions | horizon-1c-extension/content/content.js:537-547 | the older revision keeps the for-label's raw text, even a blank one the newer revision skips; the newer one trims it and strips a trailing '*' |
| ExtContent.ButtonClass | horizon-1c-extension/content/content.js:528-535 | the class is horizon-button exactly for a submit button, else the secondary class |
| ExtContent.SubmitBecomesPrimary | horizon-1c-extension/content/content.js:528-535 | a submit button is plain in the older revision and primary in the newer one |
| ExtContent.ObserveMutations | horizon-1c-extension/content/content.js:565-589 | a retransform is scheduled iff the page is not yet transformed and some added element node is a list table, a dynamic form or carries data-vl-sdt |
| ExtContent.Transformer.constructor | horizon-1c-extension/content/content.js:4-14 | the transformer starts untransformed with the three default settings |
| ExtContent.Transformer.Transform | horizon-1c-extension/content/content.js:44-77 | nothing happens once transformed or off a 1C page; otherwise the body is hidden and the page type's transformation runs, after which the body is shown again and the flag is set; on a report or generic page the switch throws, leaving the body hidden and the flag clear |
| ExtContent.Transformer.Init | horizon-1c-extension/content/content.js:16-43 | truthy stored settings are spread over the defaults; a disabled extension stops there; otherwise the transform runs and the mutation observer is installed, unless the transform threw |
| ExtContent.Transformer.HandleMessage | horizon-1c-extension/content/content.js:639-654 | a nullish request throws; toggle on enables and transforms and replies success, except that a transform throwing on a report or generic page ends the listener without a reply; toggle off reloads the page and replies success; updateSettings spreads the new settings and replies success; any other action does nothing |
| ContentPage.Is1CPage | content/content.js:114-136 | with autoDetect off, the page counts as 1C exactly when its address has v8reader, clobus or 1cfresh in it; with autoDetect on, exactly when one of the five DOM markers is present, the title has "1C:" in it, or the address matches one of those parts |
| ContentPage.DetectionWidens | content/content.js:114-136 | a page found by address alone is also found with autoDetect on; any page the older revision calls 1C is still 1C; list, main and form pages are all 1C; a page with only a report panel and no matching title or address is typed Report but is not 1C |
| ContentPage.HasAnyClass | content/content.js:2036-2072 | true exactly when one of the listed classes is on the element |
| ContentPage.HasAnyAttribute | content/content.js:2036-2072 | true exactly when one of the listed attributes is set and truthy on the element |
| ContentPage.Is1CElement | content/content.js:2036-2072 | an element without a classList is never 1C; otherwise it is 1C exactly when it has one of the five 1C classes or a truthy data-vl-sdt or data-v8-type attribute |
| ContentPage.OlderElementsStill1C | content/content.js:2036-2072 | every element the older is1CElement accepts is accepted by the newer one |
| ContentPage.Decision | content/content.js:1995-2000 | a full transform is scheduled exactly when a retransform is wanted and the page is not yet transformed; a new-content pass is scheduled exactly when new content arrived on a page that is already transformed |
| ContentPage.ScanAddedNodes | content/content.js:1965-1983 | the retransform flag is set exactly when some added element node is a 1C element; the new-content flag is set exactly when some added element node holds a list table, dynamic form, table or form |
| ContentPage.ObserveMutations | content/content.js:1954-2010 | the scheduled action is the decision over the whole batch: retransform if any child-list mutation adds a 1C element or any attribute mutation hits one, new content if any mutation adds a table or form |
| ContentPage.ObserverWidens | content/content.js:1954-2010 | on a page not yet transformed, a batch that adds an element the older revision calls 1C always schedules a full transform |
| ContentPage.Treated | content/content.js:2012-2033 | the element put in place of an untreated table or form is itself no longer untreated |
| ContentPage.Refreshed | content/content.js:2012-2033 | the refresh keeps the number of elements |
| ContentPage.RefreshedSettles | content/content.js:2012-2033 | after a refresh no element is untreated; elements already treated or inside a wrapper are left as they were; a second refresh changes nothing |
| ContentPage.ReplaceUntreated | content/content.js:2012-2033 | the loop replaces exactly the untreated elements, giving the refresh of the input |
| ContentPage.TransformNewContent | content/content.js:2012-2033 | tables outside a datatable wrapper and forms outside a form card are replaced, every other one is kept |
| ContentPage.NonEmptyParts | content/content.js:826-836 | the filtered path segments are no more than the parts and none of them is empty |
| ContentPage.GenerateBreadcrumbs | content/content.js:826-836 | there are breadcrumbs exactly when the path has at least two non-empty segments, and they are the last two joined by " › " |
| ContentPage.BreadcrumbsOfPath | content/content.js:826-836 | the path "/a/b" gives the breadcrumbs "a › b" |
| ContentPage.UpdatedStats | content/content.js:71-88 | the stored statistics, or zero defaults when nothing is stored, get transformedPages and totalSessions incremented and lastUsed set to the timestamp, and every other key is kept; a stored array is stored as it was, and a stored primitive throws |
| ContentPage.StatsCountFromZero | content/content.js:71-88 | starting from nothing stored, one update counts one page and one session, a second update counts two of each and carries the later timestamp |
| ContentPage.MainOutcomeRules | content/content.js:139-210 | on success the body holds the Horizon layout with the horizon-transformed class and the original body is saved; a failure after the body is replaced, or while building with nothing else saved, leaves the original body in place |
| ContentPage.AsWrittenNeverInstalls | content/content.js:139-210 | with groupMenuItems as written the build always fails while building, so the body is never replaced by the layout and the original body stays (or comes back from the saved copy) |
| ContentPage.AppliedVarsRules | content/content.js:52-69 | the animation duration variable follows the animations setting; a usable accent color is written to the brand variable; compact mode sets the spacing scale to 0.8, and otherwise the scale is left as it was |
| ContentPage.Transformer.constructor | content/content.js:3-38 | a new transformer is untransformed, holds the default settings and balanced performance mode, and has saved nothing |
| ContentPage.Transformer.Transform | content/content.js:91-111 | nothing happens when the page is already transformed, not 1C, or in battery mode on a weak device; otherwise the body is hidden and the page type's transformation runs, then the body is shown and the flag set, also after a failed main transformation; on a report or generic page the switch throws, leaving the body hidden and the flag clear; only the main page changes the body |
| ContentPage.Transformer.TransformMainInterface | content/content.js:139-210 | the body and the saved copy follow the main outcome for the given failure point, and a failure clears the transformed flag through the restore |
| ContentPage.Transformer.RestoreOriginalInterface | content/content.js:2255-2263 | the saved body comes back when there is one, and the transformed flag is cleared either way |
| ContentPage.Transformer.ApplySettingsToComponents | content/content.js:52-69 | a theme setting whose key text names a known theme becomes the theme manager's current value as given and is applied; the animations flag and performance mode follow the settings, and the root variables follow the accent color and compact mode |
| ContentPage.Transformer.UpdateStats | content/content.js:71-88 | the local statistics entry becomes the updated statistics, and stays as it was when the update throws |
| ContentPage.Transformer.Init | content/content.js:22-50 | the stored settings are spread over the defaults and applied; a disabled extension stops there; otherwise the transform runs when it can, and unless it threw the mutation observer is installed and the statistics are updated |
| ContentPage.Transformer.HandleMessage | content/content.js:2388-2411 | toggleHorizonUI enables and transforms (as Toggle states) and replies success, except that a transform throwing on a report or generic page ends the listener without a reply, or restores the original body and replies success; updateSettings spreads the new settings, applies them and replies success; getStatus reports the flag and the page test; other actions change nothing, and a missing message throws |
| ContentPage.Transformer.Toggle | content/content.js:2389-2397 | switched on, enabled is set and the transform runs unless the guard skips it: isTransformed is set and the main page's body follows the main outcome, while a report or generic page throws with the flag clear and the body hidden; switched off, the saved body comes back and isTransformed is cleared |
| ContentMenu.MapIconRule | content/content.js:1901-1951 | the icon is the default or one from the table; a lower-cased text equal to a key gets that key's icon; otherwise the first key, in table order, that the text contains wins; with none, the default '📌' |
| ContentMenu.MapIconToHorizon | content/content.js:1901-1951 | the icon is the pin or one of the table's icons; ContentMenu.MapIconRule says which |
| ContentMenu.MapIconIgnoresCase | content/content.js:1935 | the lookup ignores letter case |
| ContentMenu.ExtractBadgeInfo | content/content.js:586-598 | no badge element gives null; otherwise exactly one of text and count is set, the text being the trimmed badge text |
| ContentMenu.BadgeOfNumeral | content/content.js:589-595 | a badge reading a number becomes a count of that number |
| ContentMenu.BadgeOfWord | content/content.js:589-595 | a badge reading a word (not starting with a digit or a sign) is kept as trimmed text |
| ContentMenu.ParseIntAutoOfWord | content/content.js:591 | parseInt of a text starting with neither a digit nor a sign is NaN |
| ContentMenu.FoundItems | content/content.js:550-562 | at most one item per link, each with a non-empty trimmed text |
| ContentMenu.Extract1CMenu | content/content.js:544-584 | the items are those of the links with non-blank text, in order, and the eight defaults when there are none; the menu is never empty |
| ContentMenu.GroupOfText | content/content.js:513-528 | the category of a text is one of the six group names |
| ContentMenu.MenuGroup | content/content.js:513-514 | the category of an item, taken from its lower-cased text, is one of the six group names |
| ContentMenu.GroupIsFirstRule | content/content.js:515-528 | the category is that of the first rule whose keywords the text contains, in the order Справочники, Документы, Отчеты, Настройки, Основное, else default |
| ContentMenu.LaterRules | content/content.js:521-528 | a text matching none of the first three rules is categorised by the later rules alone |
| ContentMenu.ItemsIn | content/content.js:513-528 | the items of one category are exactly the input items in that category, in input order |
| ContentMenu.KeepNonEmpty | content/content.js:532-537 | deleting empty groups keeps exactly the non-empty entries |
| ContentMenu.Table | content/content.js:503-528 | before deletion every group key holds the items of its category |
| ContentMenu.GroupMenuItemsAsWritten | content/content.js:503-513 | as written, the loop reads an undefined originalMenu, so every call throws |
| ContentMenu.AsWrittenNeverGroups | content/content.js:503-513 | as written, no call returns the grouping of its items |
| ContentMenu.GroupMenuItems | content/content.js:503-541 | iterating over its parameter, the result is the grouping of the items |
| ContentMenu.GroupedPartition | content/content.js:503-541 | every remaining group is non-empty and holds exactly the items its rule chooses, in order; every item lands in the group of its category |
| ContentMenu.GroupedKeysDistinct | content/content.js:503-541 | no group appears twice, so each item is in exactly one group |
| ContentMenu.FilterRule | content/content.js:429-460 | an item is shown exactly when the query is empty or its lower-cased text contains the lower-cased query; a shown item's link is highlighted for a non-empty query and reset for the empty one; a hidden item's link is untouched |
| ContentMenu.FilterIdempotent | content/content.js:429-460 | filtering twice by the same query is filtering once |
| ContentMenu.MenuPanel.constructor | content/content.js:429-430 | the panel holds the given menu items |
| ContentMenu.MenuPanel.FilterMenu | content/content.js:429-460 | after the passes every item is the filtered form of its old state, and no item is added or removed |
| ContentForms.NearestWhere | content/content.js:1878-1886 | the walk over the previous siblings stops at the first one that is a label or ends with ':', having passed only siblings that are neither |
| ContentForms.NearbyLabel | content/content.js:1877-1887 | the sibling loop finds the text of the nearest previous label-like sibling, trimmed and without its first ':' |
| ContentForms.Fallback | content/content.js:1890-1895 | the attribute fallback is never empty: placeholder, title, name, then 'Поле' |
| ContentForms.LabelText | content/content.js:1856-1898 | the label text is always trimmed |
| ContentForms.ExtractLabelText | content/content.js:1856-1898 | the method computes the label text: the for-label, the nearby label, a previous sibling, then the attribute fallback, with one trailing '*' removed and trimmed |
| ContentForms.ChosenIsFirstCandidate | content/content.js:1858-1896 | the text chosen is the first non-empty candidate in that order, and is never empty |
| ContentForms.SingleStarRemoved | content/content.js:1897 | a label ending in a single '*' loses it and no longer ends with '*' |
| ContentForms.DoubleStarKeepsOne | content/content.js:1897 | a label ending in '**' keeps one '*': the pattern removes only one |
| ContentForms.BlankPlaceholderGivesNoLabel | content/content.js:1890-1897 | a placeholder of spaces wins the fallback and trims to an empty label |
| ContentForms.FieldsTitled | content/content.js:1519-1539 | a section holds at most the inputs |
| ContentForms.FieldsTitledMember | content/content.js:1519-1539 | an input is in the section of a title iff its section title is that title |
| ContentForms.FindSection | content/content.js:1532 | the find returns the first section with that title, or none |
| ContentForms.NonEmptySections | content/content.js:1541 | the filter never adds sections |
| ContentForms.NonEmptySectionsKeepsAll | content/content.js:1541 | the filter keeps every non-empty section |
| ContentForms.GroupFormFields | content/content.js:1515-1542 | every input is in exactly one section, in input order within it; the untitled section comes first, titled ones follow in order of first appearance, titles are distinct and no section is empty |
| ContentForms.DroppingEmptySections | content/content.js:1515-1542 | dropping the possibly empty untitled section of a complete grouping leaves a well-formed grouping |
| ContentForms.FormRows | content/content.js:1556-1569 | the row loop builds exactly the pairs of consecutive fields |
| ContentForms.RowsCoverFields | content/content.js:1556-1569 | the rows hold every field in order, one or two per row |
| ContentForms.FirstHelp | content/content.js:1777-1782 | the first help element with non-blank text gives its trimmed text; none exists exactly when every candidate is missing or blank |
| ContentForms.HelpText | content/content.js:1770-1791 | help text, when present, is never empty; there is none exactly when no help element has text and the title is empty |
| ContentForms.NewPlaceholder | content/content.js:1735-1738 | an existing placeholder is kept; a missing or empty one becomes 'Введите …' when there is a label; without a label nothing changes |
| ContentForms.FieldError | content/content.js:1643-1676 | the phone message exactly for a non-empty invalid tel value, the email message exactly for a non-empty invalid email value, the required message for a blank required value when neither applies, and no error otherwise |
| ContentForms.FormField.constructor | content/content.js:1715-1768 | a new field has the label text, the required mark only when there is a label, the new placeholder, the help text, the input class and no error |
| ContentForms.FormField.ShowFieldError | content/content.js:1678-1691 | the error class is added and the field shows exactly one error element, holding the message |
| ContentForms.FormField.ClearFieldError | content/content.js:1693-1702 | the error class is removed and no error element remains |
| ContentForms.FormField.ValidateField | content/content.js:1643-1676 | without the required attribute and without a label the lookup of the label throws; otherwise the result is valid exactly when there is no error, and the field shows that error or none |
| ContentForms.FormField.OnInput | content/content.js:1636-1639 | typing sets the value and clears the error |
| ContentForms.BlankRequiredFails | content/content.js:1651-1654 | a blank value fails exactly when required, for a field that is neither email nor tel |
| ContentForms.EmailMatchesPattern | content/content.js:1704-1707 | an address is valid iff it splits into non-space, non-@ text, '@', and a domain of two non-empty such parts around a '.' |
| ContentForms.IsValidEmail | content/content.js:1704-1707 | a valid address has no white space and exactly one '@'; ContentForms.EmailMatchesPattern gives the exact reading of the pattern |
| ContentForms.StripSeparators | content/content.js:1711 | stripping leaves no space, '-', '(' or ')' |
| ContentForms.StripSeparatorsAppend | content/content.js:1711 | stripping works piece by piece |
| ContentForms.SeparatorIgnored | content/content.js:1709-1712 | inserting a separator anywhere does not change whether a phone number is valid |
| ContentForms.ValidPhoneShape | content/content.js:1709-1712 | a valid phone number strips to 1 to 17 characters, all digits except an optional leading '+' |
| ContentForms.IsValidPhone | content/content.js:1709-1712 | a valid number strips to 1 to 17 characters; ContentForms.ValidPhoneShape and ContentForms.SeparatorIgnored give the rest |
| ContentForms.ButtonClass | content/content.js:1800-1814 | the class is the primary, secondary or danger one |
| ContentForms.ButtonClassRules | content/content.js:1803-1814 | primary iff submit or the text contains 'сохранить' or 'создать'; danger iff none of those nor 'отмена'/'закрыть' but 'удалить' |
| ContentForms.ButtonIconIgnoresCase | content/content.js:1829-1853 | the icon lookup ignores letter case |
| ContentForms.GetButtonIcon | content/content.js:1829-1853 | an icon comes from a table key that the lower-cased text contains, and the result is null exactly when the text contains none |
| ContentForms.SaveButton | content/content.js:1803-1853 | a save button is primary and gets the 💾 icon |
| ContentForms.CreateHorizonButton | content/content.js:1794-1827 | the button gets the chosen class, keeps its text, and gains an icon exactly when it has no span and the text has an icon |
| ContentTable.CompareText | content/content.js:2295-2297 | the text comparison is a sign, zero exactly for equal texts |
| ContentTable.CompareTextAntisymmetric | content/content.js:2295-2297 | swapping the texts negates the comparison |
| ContentTable.CompareCells | content/content.js:2283-2298 | the cell comparison is a sign |
| ContentTable.CompareCellsAntisymmetric | content/content.js:2283-2298 | swapping the cells negates the comparison, and descending is ascending with the cells swapped |
| ContentTable.CellsCompareByKind | content/content.js:2284-2297 | two cells whose trimmed texts both start with a number compare by value; otherwise they compare as trimmed texts |
| ContentTable.CellComparatorAntisymmetric | content/content.js:2283-2298 | the comparator in either direction is antisymmetric |
| ContentTable.SortRows | content/content.js:2283-2298 | the sorted rows are a permutation of the rows, ordered by the comparator on the column |
| ContentTable.InsertionPoint | content/content.js:2283-2298 | the scan stops after every row that does not compare above the new row and before one that does |
| ContentTable.InsertPermutes | content/content.js:2283-2298 | inserting a row adds exactly that row to the multiset |
| ContentTable.InsertOrdered | content/content.js:2283-2298 | inserting at the scan's stopping point keeps the rows ordered |
| ContentTable.RemoveArrows | content/content.js:2279 | removing arrows never lengthens the text |
| ContentTable.RemoveArrowsOfPlain | content/content.js:2279 | a text without a space is left alone |
| ContentTable.RemoveAppendedArrow | content/content.js:2279-2305 | the arrow a sort appends is removed by the next sort |
| ContentTable.ClickedClasses | content/content.js:2273-2304 | after a sort the clicked header has exactly one sort class, for the chosen direction, and its other classes are kept |
| ContentTable.ClicksStayAscending | content/content.js:2273-2304 | once sorted ascending, every further click sorts ascending again: the descending class is never set |
| ContentTable.SortableTable.constructor | content/content.js:2266-2270 | the table holds the given headers and rows |
| ContentTable.SortableTable.SortTable | content/content.js:2266-2306 | every other header loses its sort classes and arrows; the comparator throws exactly when two or more rows exist and one lacks the column; otherwise the rows are a permutation ordered by the column and the clicked header shows the direction class and arrow |

## Left out

- HTML and CSS template construction (`createHorizonContainer`, `Sidebar`, `Header`, `WelcomeScreen`, `ContextMenu`, `Pagination`, `Toolbar`, the page-specific transform markup, every `innerHTML` and style string): these produce markup and decide nothing. The model keeps only the layout's identity and the classes that later decisions read.
- DOM traversal: `querySelector`, `closest` and `cloneNode` are functions over the abstract records. A query searches only the descendants recorded on an element.
- Nested tables and nested forms are not modelled; each table or form is one record.
- `chrome.storage`, tabs, runtime messaging, context menus and `chrome.runtime` events. Storage is a map, and messages sent to tabs are a sequence.
- Asynchrony: `await`, promise ordering, `MutationObserver` delivery and disconnect, `setTimeout`, `setInterval`, `requestAnimationFrame`, `DOMContentLoaded` timing. Each handler runs to completion on the state it is given.
- `throttle`, `debounce`, the FPS and memory monitors, `performance.now` and `PerformanceObserver`. The rules that react to low FPS and high memory are modelled; their triggers are not.
- `navigator` hardware checks (`shouldSkipTransformation`): a `weakDevice` parameter.
- `location.reload`: the older listener returns a `reload` flag.
- `Date` and `toLocaleDateString`: timestamps and formatted dates are parameters.
- `Math.random` (`generateId`), `confirm`, the file reader of `importSettings`: parameters.
- `formatCSS`: its regular-expression chain only reformats text.
- UI event glue: anchor navigation, spinners, mobile menu toggles, keyboard shortcuts, focus and scroll side effects. Also the accessibility keyboard handlers beyond menu navigation, and `announce` and `scrollIntoView`.
- The `fadeIn` animation inside the main transform: it only writes inline styles. The animation flag it tests is modelled in `Components`.
- `handleContextMenuClick`, `collectPerformanceMetrics`, `showWelcomePage`, `openIssueReporter` in the background: these are tab and window calls with nothing to decide.
- Popup `updateContentScript`, `exportSettings` and `refreshCurrentTab`: these only message, download or reload.
- The `lineHeight` slider's `parseFloat` and floating point in general.
- Numbers are integers or decimal fractions (`parseFloat` and `Number()` of decimal literals, without exponents or `Infinity`). A nested array's `Number()` is taken as `NaN`.
- Property order of objects: objects are maps. Inherited prototype keys in lookups such as the icon table are not modelled.
- `is1CPage` returns a DOM element or a string test in the source; the model takes its truthiness.
- `CssText` covers the string, `undefined` and boolean values of a CSS custom property written by `setProperty` (by the content script and by the welcome page); other values are not modelled.
- Options.OptionsManager.WriteNested: `setNestedProperty` is modelled on values and the new tree is stored back, so aliasing between nested objects is not modelled.
- Options.OptionsManager.WriteNested: a path that passes through an array gives the array a named property, which the model does not keep (the tree stays as it was), because JSON storage drops such properties. The mapped paths name only groups and keys such as `notifications` and `fontSize`, never an index or `length`, so such a write never changes an element or the length of the array. The same holds for Options.OptionsManager.UpdateSettingFromToggle, Options.OptionsManager.UpdateSettingFromSelect and Options.OptionsManager.WriteMapped.
- JsText.ToLower and JsText.ToUpper: `toLowerCase` and `toUpperCase` are modelled for the Latin and Cyrillic letters only; every other character is kept, so special cases such as 'ß' becoming "SS" are not modelled.
- Options.CapitalizeFirst: built on `JsText.ToUpper`, so it has the same limit. So do the other members built on the case mapping: ContentMenu.MapIconToHorizon, ContentMenu.GroupOfText, ContentMenu.ShowOrHide, ContentForms.NewPlaceholder, ContentForms.ButtonClass, ContentForms.GetButtonIcon, ExtContent.MapIconToHorizon and Accessibility.IconDescription.
- Accessibility.AccessibilityManager.FocusNext: follows the corrected `Accessibility.NextIndex`, which leaves the index unchanged on an empty list. The source stores NaN there (see Findings; `Accessibility.NaNIsSticky` models the source as written).
- ContentPage.Transformer.TransformMainInterface: the point where the build fails is a `failure` parameter, so the method also covers a build that succeeds. As written the build always throws while grouping the menu (`ContentPage.AsWrittenNeverInstalls`, see Findings).
- Popup.HorizonPopup.Init: the two counters drawn by `createStatsSection` (`transformedCount`, `sessionCount`) are not drawn, because they are part of the HTML template the model leaves out; those fields keep their earlier text.
- ExtPopup.HorizonPopup.UpdateUI: a select's `value` is modelled as the value written; which option that selects, or none, depends on the page's options and is not modelled. A counter of an object or an array keeps its old text.
- ContentPage.Transformer.constructor: the transformer is modelled on the assumption that `new HorizonComponents()` succeeds, the `Components.RegistryComplete` case; with only the classes the component file declares it throws (`Components.RegistryAsDeclared`), and then no transformer is built.
- ContentTable.SortableTable.SortTable: a table without a `tbody` throws at `tbody.querySelectorAll` in the source; the model's table always has its rows.
- ContentDom.CorrectedSwitchRuns: the transformers follow the switch as written (`ContentDom.DefinedTransforms`); the corrected switch is stated only by this lemma, because the two missing transformations would only build markup, which the model leaves out.
- ExtContent.Transformer.Init and ContentPage.Transformer.Init: the transform runs at once. When the document is still loading the source defers it to `DOMContentLoaded`, and a throw there no longer stops the observer and the statistics; that order is not modelled.
- ContentTable.SortRows: stability is not stated. `Array.prototype.sort` keeps rows that compare equal in their order; the contract states a permutation in comparator order only.
- ContentTable.CompareText: `localeCompare` is modelled as code-point order, which is weaker than the locale collation. The comparator returns a sign rather than the difference `aNum - bNum`, which gives the same order.
- Welcome.Brightened: with `AdjustColorBrightness`, takes the already rounded adjustment `Math.round(2.55 * percent)` as an integer (for the secondary colour, 51 for 20 percent), so the floating-point rounding is not modelled.
- Performance notifications: `showPerformanceNotification` is modelled as the list of notice texts shown, not as page elements.

## Findings

| source | as written | input that shows it | evidently intended | confidence | as-written member | corrected member |
|---|---|---|---|---|---|---|
| content/content.js:503-513 | `groupMenuItems` iterates `originalMenu`, a name not defined in that scope, so every call throws a ReferenceError and no menu is grouped; as a result `transformMainInterface` never installs the Horizon layout (`ContentPage.AsWrittenNeverInstalls`) | any item list, e.g. one item "Справочники" | iterate the parameter `items` and group each item under the first matching keyword rule | not executed | ContentMenu.AsWrittenNeverGroups | ContentMenu.GroupedPartition |
| horizon-1c-extension/content/horizon-accessibility.js:147-150 | `focusNext` computes `(i + 1) % n`, which is NaN when there are no focusable elements; the NaN stays in `currentFocusIndex` after elements appear | zero focusable elements, then one | leave the index unchanged when there is nothing to focus | not executed | Accessibility.NaNIsSticky | Accessibility.CorrectedAgrees |
| horizon-1c-extension/content/content.js:62-70 | `transform` calls `transformReportPage` and `transformGenericPage`, which neither revision defines, so on a report or generic page it throws a TypeError after hiding the body: the page stays invisible, the flag stays clear, `init` stops before the observer (and, in the newer revision, before the statistics), and the toggle message gets no reply | a page whose only marker is `#SystemCommandBar`, or one with `.v8-report-panel` | a transformation for every page type, so that every 1C page is transformed and shown again | not executed | ContentDom.SwitchThrowsAsWritten | ContentDom.CorrectedSwitchRuns |
