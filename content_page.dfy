/** The page-level logic of the newer content script, content/content.js:
    when a page counts as a 1C page, which DOM changes bring the
    transformation back or extend it to new content, the breadcrumbs taken
    from the address, the usage statistics, and the transformer itself --
    its `isTransformed` guard, the main-interface replacement with its
    restore path, how settings reach the components, and the runtime
    message listener. */
module ContentPage {
  import opened JsText
  import opened Json
  import opened ContentDom
  import ExtContent
  import Background
  import Dom
  import Components
  import ContentMenu

  // ---- the page test

  const DomMarkers: seq<string> := [DataVlSdt, MainFrame, CommandBar, ListTable, DynamicForm]
  const AddressParts: seq<string> := ["v8reader", "clobus", "1cfresh"]

  /** `is1CPage`, given the `autoDetect` setting: without it only the
      address counts; with it the 1C marker elements and a title naming 1C
      count as well. */
  function Is1CPage(autoDetect: Json, page: PageInfo): (r: bool)
    ensures !Truthy(autoDetect) ==>
      (r <==> Contains(page.href, "v8reader") || Contains(page.href, "clobus") || Contains(page.href, "1cfresh"))
    ensures Truthy(autoDetect) ==>
      (r <==> (exists i :: 0 <= i < |DomMarkers| && DomMarkers[i] in page.markers)
              || Contains(page.title, "1C:")
              || Contains(page.href, "v8reader") || Contains(page.href, "clobus") || Contains(page.href, "1cfresh"))
  {
    assert AddressParts[0] == "v8reader" && AddressParts[1] == "clobus" && AddressParts[2] == "1cfresh";
    var byAddress := ContainsAny(page.href, AddressParts);
    if !Truthy(autoDetect) then byAddress
    else AnyMarker(page.markers, DomMarkers) || Contains(page.title, "1C:") || byAddress
  }

  /** Turning `autoDetect` on never loses a page, every page the older
      revision recognised is still recognised, and so is every list, main
      or form page; a page whose only trace is its report panel is not. */
  lemma DetectionWidens(page: PageInfo)
    ensures Is1CPage(JBool(false), page) ==> Is1CPage(JBool(true), page)
    ensures ExtContent.Is1CPage(page) ==> Is1CPage(JBool(true), page)
    ensures DetectPageType(page.markers) in {List, Main, Form} ==> Is1CPage(JBool(true), page)
    ensures page.markers == {ReportPanel} && !Contains(page.title, "1C:") && !ContainsAny(page.href, AddressParts) ==>
      DetectPageType(page.markers) == Report && !Is1CPage(JBool(true), page)
  {
    assert DomMarkers[1] == MainFrame && DomMarkers[3] == ListTable && DomMarkers[4] == DynamicForm;
    assert DomMarkers[0] == DataVlSdt && DomMarkers[2] == CommandBar;
    assert AddressParts[0] == "v8reader" && AddressParts[1] == "clobus" && AddressParts[2] == "1cfresh";
  }

  // ---- the 1C-element test

  const ClassChecks: seq<string> :=
    ["v8-dynamic-list-table", "v8-dynamic-form", "v8-main-frame", "v8-report-panel", "v8-menu-item"]
  const AttributeChecks: seq<string> := ["data-vl-sdt", "data-v8-type"]

  /** The scan over the class names: some of `checks` is among `classes`. */
  function HasAnyClass(classes: set<string>, checks: seq<string>): (r: bool)
    ensures r <==> exists i :: 0 <= i < |checks| && checks[i] in classes
  {
    if checks == [] then false
    else if checks[0] in classes then true
    else
      var r := HasAnyClass(classes, checks[1..]);
      assert r ==> exists i :: 0 <= i < |checks| && checks[i] in classes by {
        if r {
          var i :| 0 <= i < |checks| - 1 && checks[1..][i] in classes;
          assert checks[i + 1] in classes;
        }
      }
      r
  }

  /** The scan over the attributes: one of `checks` is set and not empty. */
  function HasAnyAttribute(e: Element, checks: seq<string>): (r: bool)
    ensures r <==> exists i :: 0 <= i < |checks| && AttributeSet(e, checks[i])
  {
    if checks == [] then false
    else if AttributeSet(e, checks[0]) then true
    else
      var r := HasAnyAttribute(e, checks[1..]);
      assert r ==> exists i :: 0 <= i < |checks| && AttributeSet(e, checks[i]) by {
        if r {
          var i :| 0 <= i < |checks| - 1 && AttributeSet(e, checks[1..][i]);
          assert AttributeSet(e, checks[i + 1]);
        }
      }
      r
  }

  /** `is1CElement`: never without a `classList`; otherwise one of the five
      1C classes, or one of the two 1C attributes with a non-empty
      value. */
  function Is1CElement(e: Element): (r: bool)
    ensures r <==> (e.classList.Some? &&
      ((exists i :: 0 <= i < |ClassChecks| && ClassChecks[i] in e.classList.value)
       || exists i :: 0 <= i < |AttributeChecks| && AttributeSet(e, AttributeChecks[i])))
  {
    e.classList.Some? && (HasAnyClass(e.classList.value, ClassChecks) || HasAnyAttribute(e, AttributeChecks))
  }

  /** Every element the older revision's test accepted is still
      accepted. */
  lemma OlderElementsStill1C(e: Element)
    ensures ExtContent.Is1CElement(e) ==> Is1CElement(e)
  {
    if ExtContent.Is1CElement(e) {
      assert ClassChecks[0] == "v8-dynamic-list-table" && ClassChecks[1] == "v8-dynamic-form";
      assert AttributeChecks[0] == "data-vl-sdt";
    }
  }

  // ---- the mutation observer

  /** The selectors that make an added element new content when one of its
      descendants matches. */
  const ContentSelectors: seq<string> := [ListTable, DynamicForm, "table", "form"]

  predicate HasNewContent(e: Element) {
    AnyMarker(e.inner, ContentSelectors)
  }

  /** A mutation that calls for the whole transformation: an added 1C
      element, or a changed attribute of one. */
  predicate Retriggers(m: Mutation) {
    AddsWhere(m, Is1CElement) || (m.kind == "attributes" && m.target.classList.Some? && Is1CElement(m.target))
  }

  /** What the observer schedules. */
  datatype Scheduled = ScheduleTransform | ScheduleNewContent | NothingScheduled

  /** The observer's decision: a retransform only while untransformed,
      new content only once transformed. */
  function Decision(isTransformed: bool, retransform: bool, newContent: bool): (r: Scheduled)
    ensures r == ScheduleTransform <==> retransform && !isTransformed
    ensures r == ScheduleNewContent <==> newContent && isTransformed
  {
    if retransform && !isTransformed then ScheduleTransform
    else if newContent && isTransformed then ScheduleNewContent
    else NothingScheduled
  }

  /** The pass over one mutation's added nodes. */
  method ScanAddedNodes(nodes: seq<Node>) returns (retransform: bool, newContent: bool)
    ensures retransform <==> exists j :: 0 <= j < |nodes| && nodes[j].nodeType == 1 && Is1CElement(nodes[j].element)
    ensures newContent <==> exists j :: 0 <= j < |nodes| && nodes[j].nodeType == 1 && HasNewContent(nodes[j].element)
  {
    retransform, newContent := false, false;
    for j := 0 to |nodes|
      invariant retransform <==> exists l :: 0 <= l < j && nodes[l].nodeType == 1 && Is1CElement(nodes[l].element)
      invariant newContent <==> exists l :: 0 <= l < j && nodes[l].nodeType == 1 && HasNewContent(nodes[l].element)
    {
      if nodes[j].nodeType == 1 {
        if Is1CElement(nodes[j].element) {
          retransform := true;
        }
        if HasNewContent(nodes[j].element) {
          newContent := true;
        }
      }
    }
  }

  /** The mutation observer's callback. */
  method ObserveMutations(mutations: seq<Mutation>, isTransformed: bool) returns (scheduled: Scheduled)
    ensures scheduled == Decision(isTransformed,
      exists i :: 0 <= i < |mutations| && Retriggers(mutations[i]),
      exists i :: 0 <= i < |mutations| && AddsWhere(mutations[i], HasNewContent))
  {
    var shouldRetransform, hasNewContent := false, false;
    for i := 0 to |mutations|
      invariant shouldRetransform <==> exists k :: 0 <= k < i && Retriggers(mutations[k])
      invariant hasNewContent <==> exists k :: 0 <= k < i && AddsWhere(mutations[k], HasNewContent)
    {
      var m := mutations[i];
      if m.kind == "childList" && |m.addedNodes| > 0 {
        var r, c := ScanAddedNodes(m.addedNodes);
        shouldRetransform := shouldRetransform || r;
        hasNewContent := hasNewContent || c;
      }
      if m.kind == "attributes" && m.target.classList.Some? && Is1CElement(m.target) {
        shouldRetransform := true;
      }
    }
    scheduled := Decision(isTransformed, shouldRetransform, hasNewContent);
  }

  /** Wherever the older observer scheduled a transformation, this one
      does too. */
  lemma ObserverWidens(mutations: seq<Mutation>, isTransformed: bool)
    requires !isTransformed
    requires exists i :: 0 <= i < |mutations| && AddsWhere(mutations[i], ExtContent.Is1CElement)
    ensures Decision(isTransformed,
      exists i :: 0 <= i < |mutations| && Retriggers(mutations[i]),
      exists i :: 0 <= i < |mutations| && AddsWhere(mutations[i], HasNewContent)) == ScheduleTransform
  {
    var i :| 0 <= i < |mutations| && AddsWhere(mutations[i], ExtContent.Is1CElement);
    var m := mutations[i];
    var j :| 0 <= j < |m.addedNodes| && m.addedNodes[j].nodeType == 1 && ExtContent.Is1CElement(m.addedNodes[j].element);
    OlderElementsStill1C(m.addedNodes[j].element);
    assert AddsWhere(m, Is1CElement);
    assert Retriggers(mutations[i]);
  }

  // ---- new content

  /** A table or form on the page: its classes and those of its
      ancestors.  After a replacement, the slot holds what stands in the
      original's place: the new table inside its wrapper, or the card. */
  datatype Block = Block(classes: set<string>, ancestors: set<string>)

  /** `closest(.c)`: the element itself or an ancestor has class c. */
  predicate Closest(b: Block, c: string) {
    c in b.classes || c in b.ancestors
  }

  const TableClass := "horizon-table"
  const TableWrapper := "horizon-datatable-wrapper"
  const FormCard := "horizon-form-card"

  /** The filter of `transformNewContent`: the element lacks the class
      `own` and is not inside (nor is) a `container`. */
  predicate Untreated(b: Block, own: string, container: string) {
    own !in b.classes && !Closest(b, container)
  }

  /** What stands in a replaced element's place. */
  function Treated(b: Block, own: string, container: string): (r: Block)
    ensures !Untreated(r, own, container)
  {
    Block({own}, if own == container then b.ancestors else b.ancestors + {container})
  }

  /** Each untreated element replaced, the others left alone. */
  function Refreshed(bs: seq<Block>, own: string, container: string): (r: seq<Block>)
    ensures |r| == |bs|
  {
    seq(|bs|, i requires 0 <= i < |bs| => if Untreated(bs[i], own, container) then Treated(bs[i], own, container) else bs[i])
  }

  /** After the pass nothing is left for another one: already treated
      elements are untouched, and a second pass changes nothing. */
  lemma RefreshedSettles(bs: seq<Block>, own: string, container: string)
    ensures forall i :: 0 <= i < |bs| ==> !Untreated(Refreshed(bs, own, container)[i], own, container)
    ensures forall i :: 0 <= i < |bs| && !Untreated(bs[i], own, container) ==> Refreshed(bs, own, container)[i] == bs[i]
    ensures Refreshed(Refreshed(bs, own, container), own, container) == Refreshed(bs, own, container)
  {
    var r := Refreshed(bs, own, container);
    forall i | 0 <= i < |bs| ensures !Untreated(r[i], own, container) {
      if Untreated(bs[i], own, container) {
        assert r[i] == Treated(bs[i], own, container);
      }
    }
  }

  /** One `forEach` of `transformNewContent`. */
  method ReplaceUntreated(bs: seq<Block>, own: string, container: string) returns (r: seq<Block>)
    ensures r == Refreshed(bs, own, container)
  {
    r := bs;
    for i := 0 to |bs|
      invariant |r| == |bs|
      invariant forall k :: 0 <= k < i ==> r[k] == Refreshed(bs, own, container)[k]
      invariant forall k :: i <= k < |bs| ==> r[k] == bs[k]
    {
      if Untreated(bs[i], own, container) {
        r := r[i := Treated(bs[i], own, container)];
      }
    }
  }

  /** `transformNewContent`: the tables, then the forms, not yet
      converted. */
  method TransformNewContent(tables: seq<Block>, forms: seq<Block>) returns (tablesAfter: seq<Block>, formsAfter: seq<Block>)
    ensures tablesAfter == Refreshed(tables, TableClass, TableWrapper)
    ensures formsAfter == Refreshed(forms, FormCard, FormCard)
  {
    tablesAfter := ReplaceUntreated(tables, TableClass, TableWrapper);
    formsAfter := ReplaceUntreated(forms, FormCard, FormCard);
  }

  // ---- breadcrumbs

  /** `filter(segment => segment)`. */
  function NonEmptyParts(parts: seq<string>): (r: seq<string>)
    ensures |r| <= |parts|
    ensures forall k :: 0 <= k < |r| ==> r[k] != ""
  {
    if parts == [] then []
    else if parts[0] == "" then NonEmptyParts(parts[1..])
    else [parts[0]] + NonEmptyParts(parts[1..])
  }

  function Segments(pathname: string): seq<string> {
    NonEmptyParts(Split(pathname, '/'))
  }

  /** `generateBreadcrumbs`: the last two non-empty path segments joined
      by ' › ', or nothing when the path has fewer than two. */
  function GenerateBreadcrumbs(pathname: string): (r: Option<string>)
    ensures var s := Segments(pathname);
      && (r.Some? <==> |s| >= 2)
      && (r.Some? ==> r.value == s[|s| - 2] + " › " + s[|s| - 1])
  {
    var s := Segments(pathname);
    if |s| > 1 then
      var last := s[|s| - 2..];
      assert last[0] == s[|s| - 2] && last[1..] == [s[|s| - 1]];
      assert Join(last[1..], " › ") == s[|s| - 1];
      Some(Join(last, " › "))
    else None
  }

  /** Splitting at a first separator. */
  lemma SplitAtFirst(x: string, c: char, rest: string)
    requires c !in x
    ensures Split(x + [c] + rest, c) == [x] + Split(rest, c)
  {
    var s := x + [c] + rest;
    assert s[|x|] == c;
    assert forall i :: 0 <= i < |x| ==> s[i] == x[i];
    var i := IndexOf(s, c);
    assert i == |x|;
    assert s[..i] == x;
    assert s[i + 1..] == rest;
  }

  /** A path without separators is one segment. */
  lemma SplitWithoutSeparator(b: string, c: char)
    requires c !in b
    ensures Split(b, c) == [b]
  {
  }

  /** A two-level path names both levels. */
  lemma BreadcrumbsOfPath(a: string, b: string)
    requires a != "" && b != "" && '/' !in a && '/' !in b
    ensures GenerateBreadcrumbs("/" + a + "/" + b) == Some(a + " › " + b)
  {
    var tail := a + ['/'] + b;
    SplitWithoutSeparator(b, '/');
    SplitAtFirst(a, '/', b);
    assert Split(tail, '/') == [a, b];
    var path := [] + ['/'] + tail;
    SplitAtFirst([], '/', tail);
    assert Split(path, '/') == [[], a, b];
    assert path == "/" + a + "/" + b;
    var parts: seq<string> := [[], a, b];
    assert parts[1..] == [a, b] && [a, b][1..] == [b] && [b][1..] == [];
    assert NonEmptyParts([b]) == [b] + NonEmptyParts([]);
    assert NonEmptyParts([a, b]) == [a] + NonEmptyParts([b]);
    assert NonEmptyParts(parts) == NonEmptyParts([a, b]);
    assert Segments(path) == [a, b];
  }

  // ---- statistics

  const StatsKey := "horizonStats"

  const DefaultStats: Json := JObj(map["transformedPages" := JNum(0), "lastUsed" := JNull, "totalSessions" := JNum(0)])

  /** The stats `updateStats` stores, from what `storage.local` holds
      (`undefined` when nothing): a falsy entry starts from zero, both
      counters go up and the time is stamped.  An array takes the counters
      as named properties, which storage does not keep, so it is stored as
      it was; writing them onto a primitive throws, and then nothing is
      stored. */
  function UpdatedStats(stored: Json, nowIso: string): (r: Option<Json>)
    ensures var base := if Truthy(stored) then stored else DefaultStats;
      && (r.Some? <==> base.JObj? || base.JArr?)
      && (base.JArr? ==> r == Some(base))
      && (base.JObj? ==> (r.Some? && r.value.JObj?
          && r.value.fields.Keys == base.fields.Keys + {"transformedPages", "lastUsed", "totalSessions"}
          && r.value.fields["transformedPages"] == Background.Incremented(Member(base, "transformedPages"))
          && r.value.fields["totalSessions"] == Background.Incremented(Member(base, "totalSessions"))
          && r.value.fields["lastUsed"] == JStr(nowIso)
          && forall k :: k in base.fields && k !in {"transformedPages", "lastUsed", "totalSessions"} ==>
               r.value.fields[k] == base.fields[k]))
  {
    var base := if Truthy(stored) then stored else DefaultStats;
    if base.JObj? then
      var f := base.fields;
      Some(JObj(f["transformedPages" := Background.Incremented(Member(base, "transformedPages"))]
                 ["lastUsed" := JStr(nowIso)]
                 ["totalSessions" := Background.Incremented(Member(base, "totalSessions"))]))
    else if base.JArr? then Some(base)
    else None
  }

  /** From nothing stored, the first update counts one page and one
      session, the next two of each. */
  lemma StatsCountFromZero(iso1: string, iso2: string)
    ensures var once := UpdatedStats(JUndefined, iso1);
      && once.Some? && Member(once.value, "transformedPages") == JNum(1) && Member(once.value, "totalSessions") == JNum(1)
      && var twice := UpdatedStats(once.value, iso2);
      && twice.Some? && Member(twice.value, "transformedPages") == JNum(2) && Member(twice.value, "totalSessions") == JNum(2)
      && Member(twice.value, "lastUsed") == JStr(iso2)
  {
    var once := UpdatedStats(JUndefined, iso1);
    assert Member(DefaultStats, "transformedPages") == JNum(0);
    assert Member(DefaultStats, "totalSessions") == JNum(0);
    assert Member(once.value, "transformedPages") == JNum(1);
    assert Member(once.value, "totalSessions") == JNum(1);
  }

  // ---- the transformer

  /** The body's content: the page's own markup, or the Horizon layout. */
  datatype Content = PageMarkup(html: string) | HorizonLayout

  /** `document.body`: its content and classes. */
  datatype Body = Body(content: Content, classes: set<string>)

  /** Where the main-interface transformation throws, if anywhere: while
      building the layout, or after the body was replaced (binding the
      events or starting the animation). */
  datatype Failure = NoFailure | WhileBuilding | AfterReplacing

  /** The body and the saved copy after `transformMainInterface`.  A
      failure restores the saved copy, which is this body when the failure
      comes after the copy was taken, and whatever an earlier run saved
      when it comes before. */
  function MainOutcome(body: Body, saved: Option<Body>, failure: Failure): (Body, Option<Body>) {
    match failure
    case NoFailure => (Body(HorizonLayout, body.classes + {"horizon-transformed"}), Some(body))
    case WhileBuilding => (if saved.Some? then saved.value else body, saved)
    case AfterReplacing => (body, Some(body))
  }

  /** The stage at which `transformMainInterface` fails as written.
      Building the sidebar builds the navigation menu, which groups the
      items read from the page with `groupMenuItems`; that call throws on
      every input, so the layout is never finished. */
  function AsWrittenFailure(items: seq<ContentMenu.MenuItem>): (r: Failure)
  {
    if ContentMenu.GroupMenuItemsAsWritten(items).Threw? then WhileBuilding else NoFailure
  }

  /** As written, the Horizon layout is never installed: whatever the menu
      items, the body is the one an earlier run saved, or the page's own,
      and no new copy is saved. */
  lemma AsWrittenNeverInstalls(body: Body, saved: Option<Body>, items: seq<ContentMenu.MenuItem>)
    ensures AsWrittenFailure(items) == WhileBuilding
    ensures MainOutcome(body, saved, AsWrittenFailure(items)) == (if saved.Some? then saved.value else body, saved)
    ensures saved.None? ==> MainOutcome(body, saved, AsWrittenFailure(items)).0 == body
  {
  }

  /** A successful run keeps a copy of the page it replaced; a failed one
      leaves the page's own body in place unless an earlier run left a
      different copy. */
  lemma MainOutcomeRules(body: Body, saved: Option<Body>, failure: Failure)
    ensures failure == NoFailure ==>
      MainOutcome(body, saved, failure).0.content == HorizonLayout
      && "horizon-transformed" in MainOutcome(body, saved, failure).0.classes
      && MainOutcome(body, saved, failure).1 == Some(body)
    ensures failure == AfterReplacing || (failure == WhileBuilding && (saved.None? || saved == Some(body))) ==>
      MainOutcome(body, saved, failure).0 == body
  {
  }

  const BrandVar := "--horizon-brand-500"
  const ScaleVar := "--horizon-space-scale"

  /** The root custom properties after `applySettingsToComponents`. */
  function AppliedVars(vars: map<string, string>, settings: Fields): map<string, string> {
    var s := JObj(settings);
    var theme := KeyText(Member(s, "theme"));
    var themed := if theme.Some? && theme.value in Components.Themes then Components.Assigned(vars, Components.Themes[theme.value]) else vars;
    var timed := themed[Components.DurationVar := if Truthy(Member(s, "animations")) then "0.2s" else "0s"];
    var accent := CssText(Member(s, "accentColor"));
    var coloured := if accent.Some? then timed[BrandVar := accent.value] else timed;
    if Truthy(Member(s, "compactMode")) then coloured[ScaleVar := "0.8"] else coloured
  }

  /** The animation duration follows the `animations` flag, the accent
      colour is set, compact mode scales the spacing, and the spacing is
      otherwise left alone. */
  lemma AppliedVarsRules(vars: map<string, string>, settings: Fields)
    ensures var r := AppliedVars(vars, settings);
      && var s := JObj(settings);
      && Components.DurationVar in r
      && r[Components.DurationVar] == (if Truthy(Member(s, "animations")) then "0.2s" else "0s")
      && (CssText(Member(s, "accentColor")).Some? ==> BrandVar in r && r[BrandVar] == CssText(Member(s, "accentColor")).value)
      && (Truthy(Member(s, "compactMode")) ==> ScaleVar in r && r[ScaleVar] == "0.8")
      && (!Truthy(Member(s, "compactMode")) ==> ((ScaleVar in r <==> ScaleVar in vars)
          && (ScaleVar in vars ==> r[ScaleVar] == vars[ScaleVar])))
  {
    var s := JObj(settings);
    var theme := KeyText(Member(s, "theme"));
    if theme.Some? && theme.value in Components.Themes {
      var entries := Components.Themes[theme.value];
      assert forall i :: 0 <= i < |entries| ==> entries[i].0 != ScaleVar;
      Components.AssignedOthers(vars, entries, ScaleVar);
    }
  }

  const DefaultSettings: Fields := map[
    "enabled" := JBool(true), "theme" := JStr("light"), "animations" := JBool(true),
    "accentColor" := JStr("#4318FF"), "compactMode" := JBool(false), "autoDetect" := JBool(true),
    "performance" := JStr("balanced")]

  /** `HorizonUITransformer`.  `local` stands for `chrome.storage.local`;
      the page's root element and the component managers are shared with
      the component library. */
  class Transformer {
    var isTransformed: bool
    var settings: Fields
    var performanceMode: Json
    var body: Body
    var savedBody: Option<Body>
    var local: Fields
    var hidden: bool
    var observing: bool
    const page: Dom.Page
    const themes: Components.ThemeManager
    const animations: Components.AnimationManager

    predicate Wired()
      reads this
    {
      themes.page == page && animations.page == page
    }

    constructor(body: Body, page: Dom.Page, themes: Components.ThemeManager, animations: Components.AnimationManager)
      requires themes.page == page && animations.page == page
      ensures Wired() && !isTransformed && settings == DefaultSettings && performanceMode == JStr("balanced")
      ensures this.body == body && savedBody.None? && local == map[] && !hidden && !observing
      ensures this.page == page && this.themes == themes && this.animations == animations
    {
      isTransformed := false;
      settings := DefaultSettings;
      performanceMode := JStr("balanced");
      this.body := body;
      savedBody := None;
      local := map[];
      hidden := false;
      observing := false;
      this.page := page;
      this.themes := themes;
      this.animations := animations;
    }

    /** The guard of `transform`: already transformed, not a 1C page, or
        battery mode on a device too weak for it. */
    predicate Skips(info: PageInfo, weakDevice: bool)
      reads this
    {
      isTransformed || !Is1CPage(Member(JObj(settings), "autoDetect"), info)
      || (performanceMode == JStr("battery") && weakDevice)
    }

    /** `transform`: past the guard, the body is hidden and the switch on
        the page's type runs.  When the transformation exists the body is
        shown again and the flag is set -- also when the main-interface
        transformation failed and restored the page; on a report or
        generic page the call throws with the body hidden and the flag
        clear.  `weakDevice` is the answer of `shouldSkipTransformation`. */
    method Transform(info: PageInfo, weakDevice: bool, failure: Failure) returns (ran: Option<Switched>)
      modifies this
      ensures old(Skips(info, weakDevice)) ==>
        ran.None? && isTransformed == old(isTransformed) && body == old(body) && savedBody == old(savedBody)
        && hidden == old(hidden)
      ensures !old(Skips(info, weakDevice)) ==>
        ran == Some(Switch(DetectPageType(info.markers), DefinedTransforms))
        && isTransformed == ran.value.Ran? && hidden == ran.value.ThrewAt?
      ensures ran == Some(Ran(Main)) ==> (body, savedBody) == MainOutcome(old(body), old(savedBody), failure)
      ensures ran != Some(Ran(Main)) ==> body == old(body) && savedBody == old(savedBody)
      ensures settings == old(settings) && performanceMode == old(performanceMode) && local == old(local)
      ensures observing == old(observing)
    {
      if Skips(info, weakDevice) {
        return None;
      }
      hidden := true;
      var switched := Switch(DetectPageType(info.markers), DefinedTransforms);
      ran := Some(switched);
      if switched.ThrewAt? {
        return;
      }
      if switched.pageType == Main {
        TransformMainInterface(failure);
      }
      hidden := false;
      isTransformed := true;
    }

    /** `transformMainInterface`: the layout replaces the body after a copy
        of it is saved; a failure restores the saved copy and clears the
        flag. */
    method TransformMainInterface(failure: Failure)
      modifies this
      ensures (body, savedBody) == MainOutcome(old(body), old(savedBody), failure)
      ensures isTransformed == (old(isTransformed) && failure == NoFailure)
      ensures settings == old(settings) && performanceMode == old(performanceMode) && local == old(local)
      ensures hidden == old(hidden) && observing == old(observing)
    {
      if failure == WhileBuilding {
        RestoreOriginalInterface();
        return;
      }
      savedBody := Some(body);
      body := Body(HorizonLayout, body.classes + {"horizon-transformed"});
      if failure == AfterReplacing {
        RestoreOriginalInterface();
      }
    }

    /** `restoreOriginalInterface`: the saved body's content and classes
        come back if there is a saved body; the flag is cleared in any
        case. */
    method RestoreOriginalInterface()
      modifies this
      ensures body == (if old(savedBody).Some? then old(savedBody).value else old(body))
      ensures !isTransformed && savedBody == old(savedBody)
      ensures settings == old(settings) && performanceMode == old(performanceMode) && local == old(local)
      ensures hidden == old(hidden) && observing == old(observing)
    {
      if savedBody.Some? {
        body := Body(savedBody.value.content, savedBody.value.classes);
      }
      isTransformed := false;
    }

    /** `applySettingsToComponents`: the theme, the animation flag, the
        root custom properties and the performance mode follow the
        settings. */
    method ApplySettingsToComponents()
      requires Wired()
      modifies this, page, themes, animations
      ensures performanceMode == Member(JObj(settings), "performance")
      ensures animations.animationsEnabled == Member(JObj(settings), "animations")
      ensures var t := KeyText(Member(JObj(settings), "theme"));
        themes.currentTheme == if t.Some? && t.value in Components.Themes then Member(JObj(settings), "theme") else old(themes.currentTheme)
      ensures page.rootVars == AppliedVars(old(page.rootVars), settings)
      ensures page.rootClasses == old(page.rootClasses) && page.styleIds == old(page.styleIds)
      ensures settings == old(settings) && isTransformed == old(isTransformed) && body == old(body)
      ensures savedBody == old(savedBody) && local == old(local)
      ensures hidden == old(hidden) && observing == old(observing)
    {
      var s := JObj(settings);
      themes.SetTheme(Member(s, "theme"));
      animations.SetAnimationsEnabled(Member(s, "animations"));
      var accent := CssText(Member(s, "accentColor"));
      if accent.Some? {
        page.SetRootVar(BrandVar, accent.value);
      }
      if Truthy(Member(s, "compactMode")) {
        page.SetRootVar(ScaleVar, "0.8");
      }
      performanceMode := Member(s, "performance");
    }

    /** `updateStats` against `chrome.storage.local`: the entry is
        replaced by the updated stats, or left as it was when updating
        throws. */
    method UpdateStats(nowIso: string)
      modifies this
      ensures var next := UpdatedStats(if StatsKey in old(local) then old(local)[StatsKey] else JUndefined, nowIso);
        local == if next.Some? then old(local)[StatsKey := next.value] else old(local)
      ensures settings == old(settings) && isTransformed == old(isTransformed) && body == old(body)
      ensures savedBody == old(savedBody) && performanceMode == old(performanceMode)
      ensures hidden == old(hidden) && observing == old(observing)
    {
      var next := UpdatedStats(if StatsKey in local then local[StatsKey] else JUndefined, nowIso);
      if next.Some? {
        local := local[StatsKey := next.value];
      }
    }

    /** `init`: the stored settings (`undefined` when there are none, or
        when reading them fails) override the current ones and are
        applied; unless they turn the extension off, the page is
        transformed, the observer installed and the visit counted -- unless
        the transform threw, which rejects `init` before the observer. */
    method Init(stored: Json, info: PageInfo, weakDevice: bool, failure: Failure, nowIso: string) returns (ran: Option<Switched>)
      requires Wired()
      modifies this, page, themes, animations
      ensures settings == if Truthy(stored) then Spread(JObj(old(settings)), stored).fields else old(settings)
      ensures performanceMode == Member(JObj(settings), "performance")
      ensures !Truthy(Member(JObj(settings), "enabled")) ==>
        ran.None? && isTransformed == old(isTransformed) && local == old(local) && body == old(body)
        && hidden == old(hidden) && observing == old(observing)
      ensures Truthy(Member(JObj(settings), "enabled")) ==>
        (ran.None? <==> old(isTransformed) || !Is1CPage(Member(JObj(settings), "autoDetect"), info)
                        || (performanceMode == JStr("battery") && weakDevice))
        && (ran.Some? ==> ran == Some(Switch(DetectPageType(info.markers), DefinedTransforms))
                          && isTransformed == ran.value.Ran? && hidden == ran.value.ThrewAt?)
        && observing == (old(observing) || !SwitchThrew(ran))
        && local == (var next := UpdatedStats(if StatsKey in old(local) then old(local)[StatsKey] else JUndefined, nowIso);
                     if next.Some? && !SwitchThrew(ran) then old(local)[StatsKey := next.value] else old(local))
    {
      if Truthy(stored) {
        settings := Spread(JObj(settings), stored).fields;
      }
      ApplySettingsToComponents();
      if !Truthy(Member(JObj(settings), "enabled")) {
        return None;
      }
      ran := Transform(info, weakDevice, failure);
      if SwitchThrew(ran) {
        return;
      }
      observing := true;
      UpdateStats(nowIso);
    }

    /** The `toggleHorizonUI` route: switched on, the flag is set and the
        page transformed (the guard may still skip it), which throws on a
        report or generic page (`threw`); switched off, the original
        interface is restored. */
    method Toggle(enabled: bool, info: PageInfo, weakDevice: bool, failure: Failure) returns (threw: bool)
      modifies this
      ensures enabled ==>
        var switched := Switch(DetectPageType(info.markers), DefinedTransforms);
        settings == old(settings)["enabled" := JBool(true)]
        && threw == (!old(Skips(info, weakDevice)) && switched.ThrewAt?)
        && isTransformed == (old(isTransformed) || (!old(Skips(info, weakDevice)) && switched.Ran?))
        && hidden == (if old(Skips(info, weakDevice)) then old(hidden) else switched.ThrewAt?)
        && (!old(Skips(info, weakDevice)) && switched == Ran(Main) ==>
              (body, savedBody) == MainOutcome(old(body), old(savedBody), failure))
      ensures !enabled ==>
        !threw && !isTransformed && settings == old(settings) && hidden == old(hidden)
        && body == (if old(savedBody).Some? then old(savedBody).value else old(body))
      ensures performanceMode == old(performanceMode) && local == old(local) && observing == old(observing)
    {
      threw := false;
      if enabled {
        settings := settings["enabled" := JBool(true)];
        var ran := Transform(info, weakDevice, failure);
        threw := SwitchThrew(ran);
      } else {
        RestoreOriginalInterface();
      }
    }

    /** The runtime message listener.  `toggleHorizonUI` with `enabled`
        switches on and transforms; without it the original interface is
        restored.  `updateSettings` merges the supplied settings and
        applies them.  `getStatus` reports the flag and the page test.
        Other actions get no reply; a missing message throws. */
    method HandleMessage(request: Json, info: PageInfo, weakDevice: bool, failure: Failure) returns (reply: Reply)
      requires Wired()
      modifies this, page, themes, animations
      ensures Nullish(request) ==> reply == Threw
      ensures !Nullish(request) && Member(request, "action") == JStr("toggleHorizonUI") ==>
        var switched := Switch(DetectPageType(info.markers), DefinedTransforms);
        (Truthy(Member(request, "enabled")) ==>
              reply == (if !old(Skips(info, weakDevice)) && switched.ThrewAt? then Threw else Replied(Success))
              && settings == old(settings)["enabled" := JBool(true)]
              && isTransformed == (old(isTransformed) || (!old(Skips(info, weakDevice)) && switched.Ran?))
              && hidden == (if old(Skips(info, weakDevice)) then old(hidden) else switched.ThrewAt?)
              && (!old(Skips(info, weakDevice)) && switched == Ran(Main) ==>
                    (body, savedBody) == MainOutcome(old(body), old(savedBody), failure)))
        && (!Truthy(Member(request, "enabled")) ==> (reply == Replied(Success) && !isTransformed
            && settings == old(settings) && hidden == old(hidden)
            && body == (if old(savedBody).Some? then old(savedBody).value else old(body))))
      ensures !Nullish(request) && Member(request, "action") == JStr("updateSettings") ==>
        reply == Replied(Success)
        && settings == Spread(JObj(old(settings)), Member(request, "settings")).fields
        && performanceMode == Member(JObj(settings), "performance")
        && isTransformed == old(isTransformed)
      ensures !Nullish(request) && Member(request, "action") == JStr("getStatus") ==>
        reply == Replied(JObj(map["isTransformed" := JBool(old(isTransformed)),
                                  "is1CPage" := JBool(Is1CPage(Member(JObj(old(settings)), "autoDetect"), info))]))
        && settings == old(settings) && isTransformed == old(isTransformed)
      ensures Nullish(request) || !(Member(request, "action") in {JStr("toggleHorizonUI"), JStr("updateSettings"), JStr("getStatus")}) ==>
        (reply == Threw || reply == NoReply) && settings == old(settings) && isTransformed == old(isTransformed)
        && body == old(body) && hidden == old(hidden)
      ensures Nullish(request) || Member(request, "action") != JStr("toggleHorizonUI") ==> hidden == old(hidden)
      ensures observing == old(observing)
    {
      if Nullish(request) {
        return Threw;
      }
      var action := Member(request, "action");
      reply := NoReply;
      if action == JStr("toggleHorizonUI") {
        var threw := Toggle(Truthy(Member(request, "enabled")), info, weakDevice, failure);
        if threw {
          return Threw;
        }
        reply := Replied(Success);
      }
      if action == JStr("updateSettings") {
        settings := Spread(JObj(settings), Member(request, "settings")).fields;
        ApplySettingsToComponents();
        reply := Replied(Success);
      }
      if action == JStr("getStatus") {
        reply := Replied(JObj(map["isTransformed" := JBool(isTransformed),
                                  "is1CPage" := JBool(Is1CPage(Member(JObj(settings), "autoDetect"), info))]));
      }
    }
  }
}
