/** The performance manager of the content script: mode tables, batching of
    element processing and the downgrade rules
    (horizon-1c-extension/content/horizon-performance.js). */
module Performance {
  import opened JsText
  import opened Json
  import opened Dom
  import opened Batching

  /** What one performance mode switches on and off, and the root custom
      properties and class it sets. */
  datatype ModeTable = ModeTable(
    animations: bool, shadows: bool, gradients: bool, transforms: bool,
    observerThrottle: nat, duration: string, timing: Option<string>,
    reducedMotion: bool)

  const HighTable := ModeTable(true, true, true, true, 0, "0.2s", Some("ease-out"), false)
  const BalancedTable := ModeTable(true, true, true, false, 100, "0.3s", Some("ease"), false)
  const BatteryTable := ModeTable(false, false, false, false, 500, "0s", None, true)

  const DurationVar := "--horizon-animation-duration"
  const TimingVar := "--horizon-transition-timing"
  const ReducedMotionClass := "horizon-reduced-motion"
  const LowPerformanceClass := "horizon-low-performance"

  /** The table `applyPerformanceOptimizations` switches to for a mode. */
  function TableFor(mode: string): (r: Option<ModeTable>)
    ensures r.Some? <==> mode in {"high", "balanced", "battery"}
  {
    if mode == "high" then Some(HighTable)
    else if mode == "balanced" then Some(BalancedTable)
    else if mode == "battery" then Some(BatteryTable)
    else None
  }

  /** The optimization entries a table writes. */
  function Entries(t: ModeTable): (r: map<string, Json>)
    ensures r.Keys == {"animations", "shadows", "gradients", "transforms", "observerThrottle"}
  {
    map["animations" := JBool(t.animations), "shadows" := JBool(t.shadows),
        "gradients" := JBool(t.gradients), "transforms" := JBool(t.transforms),
        "observerThrottle" := JNum(t.observerThrottle)]
  }

  /** The root custom properties a table sets. */
  function Vars(t: ModeTable): (r: map<string, string>)
    ensures DurationVar in r && r[DurationVar] == t.duration
    ensures t.timing.Some? <==> TimingVar in r
    ensures t.timing.Some? ==> r[TimingVar] == t.timing.value
    ensures r.Keys <= {DurationVar, TimingVar}
  {
    if t.timing.Some? then map[DurationVar := t.duration, TimingVar := t.timing.value]
    else map[DurationVar := t.duration]
  }

  /** The tables as the design states them: the observer throttle grows as
      the mode gets lighter, animations are off only in battery mode, and
      transforms are on only in high mode. */
  lemma ModeTableFacts(mode: string)
    requires TableFor(mode).Some?
    ensures var t := TableFor(mode).value;
      && (mode == "high" ==> t.observerThrottle == 0)
      && (mode == "balanced" ==> t.observerThrottle == 100)
      && (mode == "battery" ==> t.observerThrottle == 500)
      && (!t.animations <==> mode == "battery")
      && (t.transforms <==> mode == "high")
      && (t.reducedMotion <==> mode == "battery")
      && (t.shadows == t.gradients == t.animations)
  {
  }

  /** `getBatchSize`. */
  function BatchSize(mode: string): (r: nat)
    ensures r > 0
    ensures r == if mode == "high" then 50 else if mode == "battery" then 10 else 25
  {
    match mode
    case "high" => 50
    case "balanced" => 25
    case "battery" => 10
    case _ => 25
  }

  /** `getBatchDelay`, in milliseconds. */
  function BatchDelay(mode: string): (r: nat)
    ensures r == if mode == "high" then 0 else if mode == "battery" then 33 else 16
  {
    match mode
    case "high" => 0
    case "balanced" => 16
    case "battery" => 33
    case _ => 16
  }

  /** A lighter mode processes fewer elements per frame and waits longer. */
  lemma BatchingMonotone()
    ensures BatchSize("high") > BatchSize("balanced") > BatchSize("battery")
    ensures BatchDelay("high") < BatchDelay("balanced") < BatchDelay("battery")
    ensures forall m :: TableFor(m).None? ==>
      BatchSize(m) == BatchSize("balanced") && BatchDelay(m) == BatchDelay("balanced")
  {
  }

  const WillChangeHint := "transform, opacity"

  /** An element whose inline `will-change` style the manager may set. */
  class Element {
    var willChange: string

    constructor(w: string)
      ensures willChange == w
    {
      willChange := w;
    }
  }

  /** The texts `showPerformanceNotification` is given by the two
      downgrade rules. */
  const MemoryNotice := "Обнаружено высокое использование памяти. Переключено в режим экономии."
  const FpsNotice := "Обнаружен низкий FPS. Переключено в сбалансированный режим."

  class PerformanceManager {
    var mode: string
    var optimizations: map<string, Json>
    /** The texts of the performance notifications shown so far. */
    var notices: seq<string>
    var page: Page

    constructor(page: Page)
      ensures mode == "balanced" && optimizations == map[] && notices == []
      ensures this.page == page
    {
      mode := "balanced";
      optimizations := map[];
      notices := [];
      this.page := page;
    }

    /** Whether `optimizations.get('transforms')` is truthy. */
    predicate TransformsOn()
      reads this
    {
      "transforms" in optimizations && Truthy(optimizations["transforms"])
    }

    /** The body shared by `enableHighPerformanceMode`, `enableBalancedMode`
        and `enableBatterySavingMode`: write the table's entries and set the
        table's root properties and class. */
    method EnableMode(t: ModeTable)
      modifies this, page
      ensures optimizations == old(optimizations) + Entries(t)
      ensures page.rootVars == old(page.rootVars) + Vars(t)
      ensures page.rootClasses == old(page.rootClasses) + (if t.reducedMotion then {ReducedMotionClass} else {})
      ensures page.styleIds == old(page.styleIds)
      ensures mode == old(mode) && notices == old(notices) && page == old(page)
    {
      optimizations := optimizations + Entries(t);
      page.SetRootVar(DurationVar, t.duration);
      if t.timing.Some? {
        page.SetRootVar(TimingVar, t.timing.value);
      }
      if t.reducedMotion {
        page.ToggleRootClass(ReducedMotionClass, true);
      }
    }

    /** `applyPerformanceOptimizations`: the switch has no default branch,
        so an unrecognised mode changes nothing. */
    method ApplyPerformanceOptimizations()
      modifies this, page
      ensures TableFor(old(mode)).None? ==>
        optimizations == old(optimizations) && page.rootVars == old(page.rootVars)
        && page.rootClasses == old(page.rootClasses)
      ensures TableFor(old(mode)).Some? ==>
        var t := TableFor(old(mode)).value;
        && optimizations == old(optimizations) + Entries(t)
        && page.rootVars == old(page.rootVars) + Vars(t)
        && page.rootClasses == old(page.rootClasses) + (if t.reducedMotion then {ReducedMotionClass} else {})
      ensures page.styleIds == old(page.styleIds)
      ensures mode == old(mode) && notices == old(notices) && page == old(page)
    {
      var t := TableFor(mode);
      if t.Some? {
        EnableMode(t.value);
      }
    }

    /** `loadPerformanceSettings`, given the stored `performance` setting
        ("" when there is none): a stored mode is adopted and applied. */
    method LoadPerformanceSettings(stored: string)
      modifies this, page
      ensures mode == if stored != "" then stored else old(mode)
      ensures stored == "" ==> optimizations == old(optimizations) && page.rootVars == old(page.rootVars)
      ensures stored != "" && TableFor(stored).Some? ==>
        optimizations == old(optimizations) + Entries(TableFor(stored).value)
      ensures stored != "" && TableFor(stored).None? ==> optimizations == old(optimizations)
      ensures notices == old(notices) && page == old(page)
    {
      if stored != "" {
        mode := stored;
        ApplyPerformanceOptimizations();
      }
    }

    /** `handleHighMemoryUsage`: outside battery mode the battery table is
        applied and the user is told; the mode itself is kept. */
    method HandleHighMemoryUsage()
      modifies this, page
      ensures mode == old(mode) && page == old(page) && page.styleIds == old(page.styleIds)
      ensures old(mode) != "battery" ==>
        optimizations == old(optimizations) + Entries(BatteryTable)
        && page.rootVars == old(page.rootVars) + Vars(BatteryTable)
        && page.rootClasses == old(page.rootClasses) + {ReducedMotionClass}
        && notices == old(notices) + [MemoryNotice]
      ensures old(mode) == "battery" ==>
        optimizations == old(optimizations) && notices == old(notices)
        && page.rootClasses == old(page.rootClasses) && page.rootVars == old(page.rootVars)
    {
      if mode != "battery" {
        EnableMode(BatteryTable);
        notices := notices + [MemoryNotice];
      }
    }

    /** `handleLowFPS`: the low-performance class is always added; only in
        high mode is the balanced table applied and the user told. */
    method HandleLowFPS()
      modifies this, page
      ensures mode == old(mode) && page == old(page) && page.styleIds == old(page.styleIds)
      ensures LowPerformanceClass in page.rootClasses
      ensures old(mode) == "high" ==>
        optimizations == old(optimizations) + Entries(BalancedTable)
        && page.rootVars == old(page.rootVars) + Vars(BalancedTable)
        && page.rootClasses == old(page.rootClasses) + {LowPerformanceClass}
        && notices == old(notices) + [FpsNotice]
      ensures old(mode) != "high" ==>
        optimizations == old(optimizations) && notices == old(notices)
        && page.rootClasses == old(page.rootClasses) + {LowPerformanceClass}
        && page.rootVars == old(page.rootVars)
    {
      page.ToggleRootClass(LowPerformanceClass, true);
      if mode == "high" {
        EnableMode(BalancedTable);
        notices := notices + [FpsNotice];
      }
    }

    /** `processElement`: hints `will-change` when transforms are on, and
        returns the element itself. */
    method ProcessElement(e: Element) returns (r: Element)
      modifies e
      ensures r == e
      ensures e.willChange == if TransformsOn() then WillChangeHint else old(e.willChange)
    {
      if TransformsOn() {
        e.willChange := WillChangeHint;
      }
      r := e;
    }

    /** `batch.map(element => this.processElement(element))`. */
    method ProcessBatch(batch: seq<Element>) returns (batchResults: seq<Element>)
      modifies set e | e in batch
      ensures batchResults == batch
      ensures forall e :: e in batch ==>
        e.willChange == if TransformsOn() then WillChangeHint else old(e.willChange)
    {
      var i := 0;
      batchResults := [];
      while i < |batch|
        invariant 0 <= i <= |batch|
        invariant batchResults == batch[..i]
        invariant forall e :: e in batch ==>
          e.willChange == if TransformsOn() && e in batchResults then WillChangeHint else old(e.willChange)
      {
        var r := ProcessElement(batch[i]);
        batchResults := batchResults + [r];
        i := i + 1;
      }
      assert batch[..i] == batch;
    }

    /** The `processBatch` callback of `optimizeElementProcessing`: it
        processes one batch, appends the results and schedules itself on the
        next batch until none is left.  `elements` names the elements of all
        the batches. */
    method ProcessBatches(batches: seq<seq<Element>>, ghost elements: seq<Element>) returns (results: seq<Element>)
      requires Flatten(batches) == elements
      modifies set e | e in elements
      ensures results == elements
      ensures forall e :: e in elements ==>
        e.willChange == if TransformsOn() then WillChangeHint else old(e.willChange)
      decreases |batches|
    {
      if batches == [] {
        return [];
      }
      assert Flatten(batches) == batches[0] + Flatten(batches[1..]);
      var first := ProcessBatch(batches[0]);
      label AfterFirst:
      var rest := ProcessBatches(batches[1..], Flatten(batches[1..]));
      assert forall e :: e in batches[0] && e !in rest ==> e.willChange == old@AfterFirst(e.willChange);
      results := first + rest;
    }

    /** `optimizeElementProcessing`: the elements are cut into batches of the
        mode's size and processed batch after batch; the promise resolves to
        the processed elements in input order (`[]` for no elements). */
    method OptimizeElementProcessing(elements: seq<Element>) returns (results: seq<Element>)
      modifies set e | e in elements
      ensures results == elements
      ensures forall e :: e in elements ==>
        e.willChange == if TransformsOn() then WillChangeHint else old(e.willChange)
    {
      var batches := CreateBatches(elements, BatchSize(mode));
      FlattenChunks(elements, BatchSize(mode));
      results := ProcessBatches(batches, elements);
    }
  }
}
