/** The older content script, horizon-1c-extension/content/content.js: the
    page test and page-type classification, the exact-match icon table, the
    menu read from the page with its defaults, the label and button rules,
    the 1C-element test with the mutation observer's retransform condition,
    and the transformer whose `isTransformed` flag guards `transform`.  The
    page, element and mutation records here are shared with the newer
    revision. */
module ExtContent {
  import opened JsText
  import opened Json
  import opened ContentDom
  import ContentForms
  import ContentMenu

  // ---- the page

  const PageMarkers: seq<string> := [DataVlSdt, MainFrame, CommandBar]
  const UrlParts: seq<string> := ["v8reader", "clobus"]

  /** `is1CPage`: a 1C marker element on the page, or a 1C address. */
  function Is1CPage(page: PageInfo): (r: bool)
    ensures r <==> (DataVlSdt in page.markers || MainFrame in page.markers || CommandBar in page.markers
                    || Contains(page.href, "v8reader") || Contains(page.href, "clobus"))
  {
    assert PageMarkers[0] == DataVlSdt && PageMarkers[1] == MainFrame && PageMarkers[2] == CommandBar;
    assert UrlParts[0] == "v8reader" && UrlParts[1] == "clobus";
    AnyMarker(page.markers, PageMarkers) || ContainsAny(page.href, UrlParts)
  }

  /** A list or form page whose only 1C trace is its list table or form is
      not a 1C page to this revision, so it is never transformed. */
  lemma ListOrFormAloneNotDetected(page: PageInfo)
    requires page.markers <= {ListTable, DynamicForm, ReportPanel}
    requires !Contains(page.href, "v8reader") && !Contains(page.href, "clobus")
    ensures !Is1CPage(page)
  {
  }

  // ---- icons

  /** The icon table of this revision's `mapIconToHorizon`. */
  const IconMap: seq<(string, string)> := [
    ("главная", "🏠"), ("справочники", "📋"), ("документы", "📄"), ("отчеты", "📊"),
    ("настройки", "⚙️"), ("администрирование", "👑"), ("сервис", "🔧"), ("помощь", "❓")]

  /** `mapIconToHorizon`: the icon filed under the lower-cased text, else the
      pin. */
  function MapIconToHorizon(text: string): (r: string)
    ensures (exists i :: 0 <= i < |IconMap| && IconMap[i] == (ToLower(text), r))
            || (r == ContentMenu.DefaultIcon && forall i :: 0 <= i < |IconMap| ==> IconMap[i].0 != ToLower(text))
  {
    match ExactLookup(IconMap, ToLower(text))
    case Some(icon) => icon
    case None => ContentMenu.DefaultIcon
  }

  /** Only the case of the text is ignored. */
  lemma MapIconIgnoresCase(text: string)
    ensures MapIconToHorizon(ToLower(text)) == MapIconToHorizon(text)
  {
    LowerOfLower(text);
  }

  // ---- the menu

  /** The item pushed for a link whose trimmed text is not empty; the
      icon is looked up from the untrimmed text. */
  function ItemOf(l: ContentMenu.Link): ContentMenu.MenuItem {
    ContentMenu.MenuItem(Trim(l.textContent), if l.href == "" then "#" else l.href,
                         MapIconToHorizon(l.textContent), None)
  }

  /** A link the menu takes: one whose trimmed text is not empty. */
  predicate NonBlank(l: ContentMenu.Link) {
    Trim(l.textContent) != ""
  }

  /** `f` of each element `keep` accepts, in order. */
  function FilterMap<A, B>(xs: seq<A>, keep: A -> bool, f: A -> B): (r: seq<B>)
    ensures |r| <= |xs|
  {
    if xs == [] then []
    else
      var init := FilterMap(xs[..|xs| - 1], keep, f);
      if keep(xs[|xs| - 1]) then init + [f(xs[|xs| - 1])] else init
  }

  /** Nothing comes out exactly when no element is accepted. */
  lemma {:induction false} FilterMapEmpty<A, B>(xs: seq<A>, keep: A -> bool, f: A -> B)
    ensures FilterMap(xs, keep, f) == [] <==> forall i :: 0 <= i < |xs| ==> !keep(xs[i])
  {
    if xs != [] {
      var front := xs[..|xs| - 1];
      FilterMapEmpty(front, keep, f);
      assert forall i :: 0 <= i < |front| ==> front[i] == xs[i];
    }
  }

  /** The items the page's links give, in document order. */
  function FoundItems(links: seq<ContentMenu.Link>): seq<ContentMenu.MenuItem> {
    FilterMap(links, NonBlank, ItemOf)
  }

  /** The five items shown when the page has no recognisable menu. */
  const DefaultMenu: seq<ContentMenu.MenuItem> := [
    ContentMenu.MenuItem("Главная", "#", "🏠", None),
    ContentMenu.MenuItem("Справочники", "#", "📋", None),
    ContentMenu.MenuItem("Документы", "#", "📄", None),
    ContentMenu.MenuItem("Отчеты", "#", "📊", None),
    ContentMenu.MenuItem("Настройки", "#", "⚙️", None)]

  /** `extract1CMenu`: one item per link whose text is not blank, in
      order; exactly the five defaults when there is none. */
  method Extract1CMenu(links: seq<ContentMenu.Link>) returns (items: seq<ContentMenu.MenuItem>)
    ensures items == if FoundItems(links) == [] then DefaultMenu else FoundItems(links)
    ensures (forall i :: 0 <= i < |links| ==> !NonBlank(links[i])) ==> items == DefaultMenu
  {
    items := [];
    for i := 0 to |links|
      invariant items == FilterMap(links[..i], NonBlank, ItemOf)
    {
      assert links[..i + 1][..i] == links[..i];
      if NonBlank(links[i]) {
        items := items + [ItemOf(links[i])];
      }
    }
    assert links[..|links|] == links;
    FilterMapEmpty(links, NonBlank, ItemOf);
    if |items| == 0 {
      items := DefaultMenu;
    }
  }

  // ---- labels and buttons

  /** This revision's `extractLabelText`: the text of `label[for=id]` as it
      is (untrimmed, possibly empty), else the placeholder, the name, or
      'Поле'. */
  function ExtractLabelText(f: ContentForms.Input): (r: string)
    ensures f.forLabel.Some? ==> r == f.forLabel.value
    ensures f.forLabel.None? ==> r != ""
    ensures f.forLabel.None? && f.placeholder.Some? && f.placeholder.value != "" ==> r == f.placeholder.value
    ensures f.forLabel.None? && !(f.placeholder.Some? && f.placeholder.value != "") ==>
      r == (if f.name != "" then f.name else "Поле")
  {
    var fallback :=
      if f.placeholder.Some? && f.placeholder.value != "" then f.placeholder.value
      else if f.name != "" then f.name
      else "Поле";
    if f.forLabel.Some? then f.forLabel.value else fallback
  }

  /** Where both revisions take the `for` label, the newer one trims it and
      drops one trailing '*'; a blank `for` label is kept as it is here but
      passed over there. */
  lemma LabelRevisions(f: ContentForms.Input)
    requires f.forLabel.Some?
    ensures Trim(f.forLabel.value) != "" ==>
      ContentForms.LabelText(f) == Trim(ContentForms.StripStar(Trim(f.forLabel.value)))
    ensures Trim(f.forLabel.value) == "" ==>
      ExtractLabelText(f) == f.forLabel.value && ContentForms.FromLabels(f) == ContentForms.FromLabels(f.(forLabel := None))
  {
  }

  const PlainButton := "horizon-button"

  /** This revision's `createHorizonButton` class: plain for a submit button,
      secondary for every other. */
  function ButtonClass(kind: string): (r: string)
    ensures r == PlainButton || r == ContentForms.SecondaryClass
    ensures r == PlainButton <==> kind == "submit"
  {
    if kind == "submit" then PlainButton else ContentForms.SecondaryClass
  }

  /** A submit button moves from the plain class to the primary one in the
      newer revision, whatever its text. */
  lemma SubmitBecomesPrimary(text: string)
    ensures ButtonClass("submit") == PlainButton
    ensures ContentForms.ButtonClass("submit", text) == ContentForms.PrimaryClass
  {
  }

  // ---- elements and mutations

  /** This revision's `is1CElement`. */
  predicate Is1CElement(e: Element) {
    e.classList.Some? &&
    ("v8-dynamic-list-table" in e.classList.value || "v8-dynamic-form" in e.classList.value
     || AttributeSet(e, "data-vl-sdt"))
  }

  /** The mutation observer's callback: whether it schedules `transform`. */
  method ObserveMutations(mutations: seq<Mutation>, isTransformed: bool) returns (schedule: bool)
    ensures schedule <==> !isTransformed && exists i :: 0 <= i < |mutations| && AddsWhere(mutations[i], Is1CElement)
  {
    var shouldRetransform := false;
    for i := 0 to |mutations|
      invariant shouldRetransform <==> exists k :: 0 <= k < i && AddsWhere(mutations[k], Is1CElement)
    {
      var m := mutations[i];
      if m.kind == "childList" && |m.addedNodes| > 0 {
        for j := 0 to |m.addedNodes|
          invariant shouldRetransform <==>
            (exists k :: 0 <= k < i && AddsWhere(mutations[k], Is1CElement))
            || exists l :: 0 <= l < j && m.addedNodes[l].nodeType == 1 && Is1CElement(m.addedNodes[l].element)
        {
          if m.addedNodes[j].nodeType == 1 && Is1CElement(m.addedNodes[j].element) {
            shouldRetransform := true;
          }
        }
      }
    }
    schedule := shouldRetransform && !isTransformed;
  }

  // ---- the transformer

  const DefaultSettings: Fields := map["enabled" := JBool(true), "theme" := JStr("light"), "animations" := JBool(true)]

  /** `HorizonUITransformer` of this revision.  The page transformations
      themselves (markup) are not modelled: `transform` reports how its
      switch ended.  `hidden` stands for the body's opacity of 0 that
      `hideOriginalContent` sets, and `observing` for the mutation observer
      `setupMutationObserver` installs. */
  class Transformer {
    var isTransformed: bool
    var settings: Fields
    var hidden: bool
    var observing: bool

    constructor()
      ensures !isTransformed && settings == DefaultSettings && !hidden && !observing
    {
      isTransformed := false;
      settings := DefaultSettings;
      hidden := false;
      observing := false;
    }

    /** `transform`: nothing once transformed or off a 1C page; otherwise
        the body is hidden and the switch on the page's type runs.  When
        the transformation exists the body is shown again and the flag is
        set, so that a second call does nothing; on a report or generic
        page the call throws with the body hidden and the flag clear. */
    method Transform(page: PageInfo) returns (ran: Option<Switched>)
      modifies this
      ensures ran == (if old(isTransformed) || !Is1CPage(page) then None
                      else Some(Switch(DetectPageType(page.markers), DefinedTransforms)))
      ensures isTransformed == (old(isTransformed) || (ran.Some? && ran.value.Ran?))
      ensures hidden == (if ran.None? then old(hidden) else ran.value.ThrewAt?)
      ensures settings == old(settings) && observing == old(observing)
    {
      if isTransformed || !Is1CPage(page) {
        return None;
      }
      hidden := true;
      var switched := Switch(DetectPageType(page.markers), DefinedTransforms);
      ran := Some(switched);
      if switched.ThrewAt? {
        return;
      }
      hidden := false;
      isTransformed := true;
    }

    /** `init`: the stored settings (`undefined` when there are none, or
        when reading them fails) override the defaults; unless the result
        turns the extension off, the page is transformed and the observer
        installed -- unless the transform threw, which rejects `init`
        before the observer. */
    method Init(stored: Json, page: PageInfo) returns (ran: Option<Switched>)
      modifies this
      ensures settings == if Truthy(stored) then Spread(JObj(old(settings)), stored).fields else old(settings)
      ensures !Truthy(Member(JObj(settings), "enabled")) ==>
        ran == None && isTransformed == old(isTransformed) && hidden == old(hidden) && observing == old(observing)
      ensures Truthy(Member(JObj(settings), "enabled")) ==>
        ran == (if old(isTransformed) || !Is1CPage(page) then None
                else Some(Switch(DetectPageType(page.markers), DefinedTransforms)))
        && isTransformed == (old(isTransformed) || (ran.Some? && ran.value.Ran?))
        && hidden == (if ran.None? then old(hidden) else ran.value.ThrewAt?)
        && observing == (old(observing) || !SwitchThrew(ran))
    {
      if Truthy(stored) {
        settings := Spread(JObj(settings), stored).fields;
      }
      if !Truthy(Member(JObj(settings), "enabled")) {
        return None;
      }
      ran := Transform(page);
      if SwitchThrew(ran) {
        return;
      }
      observing := true;
    }

    /** The runtime message listener: `toggleHorizonUI` with `enabled`
        switches the extension on and transforms, without it reloads the
        page (`reload`); `updateSettings` merges the supplied settings.
        A transform that throws ends the listener before its reply.  Other
        actions get no reply; a missing message throws. */
    method HandleMessage(request: Json, page: PageInfo) returns (reply: Reply, reload: bool)
      modifies this
      ensures Nullish(request) ==> reply == Threw && !reload
      ensures Nullish(request) || !(Member(request, "action") in {JStr("toggleHorizonUI"), JStr("updateSettings")}) ==>
        reply == (if Nullish(request) then Threw else NoReply) && !reload
        && settings == old(settings) && isTransformed == old(isTransformed) && hidden == old(hidden)
      ensures observing == old(observing)
      ensures !Nullish(request) && Member(request, "action") == JStr("toggleHorizonUI") ==>
        reload == !Truthy(Member(request, "enabled"))
        && (reload ==> reply == Replied(Success) && settings == old(settings)
                       && isTransformed == old(isTransformed) && hidden == old(hidden))
        && (!reload ==>
              var ran := if old(isTransformed) || !Is1CPage(page) then None
                         else Some(Switch(DetectPageType(page.markers), DefinedTransforms));
              settings == old(settings)["enabled" := JBool(true)]
              && reply == (if SwitchThrew(ran) then Threw else Replied(Success))
              && isTransformed == (old(isTransformed) || (ran.Some? && ran.value.Ran?))
              && hidden == (if ran.None? then old(hidden) else ran.value.ThrewAt?))
      ensures !Nullish(request) && Member(request, "action") == JStr("updateSettings") ==>
        reply == Replied(Success) && !reload
        && settings == Spread(JObj(old(settings)), Member(request, "settings")).fields
        && isTransformed == old(isTransformed) && hidden == old(hidden)
    {
      reload := false;
      if Nullish(request) {
        return Threw, false;
      }
      var action := Member(request, "action");
      reply := NoReply;
      if action == JStr("toggleHorizonUI") {
        if Truthy(Member(request, "enabled")) {
          settings := settings["enabled" := JBool(true)];
          var ran := Transform(page);
          if SwitchThrew(ran) {
            return Threw, false;
          }
        } else {
          reload := true;
        }
        reply := Replied(Success);
      }
      if action == JStr("updateSettings") {
        settings := Spread(JObj(settings), Member(request, "settings")).fields;
        reply := Replied(Success);
      }
    }
  }
}
