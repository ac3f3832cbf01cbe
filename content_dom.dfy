/** The records both revisions of the content script read off the page:
    the address, title and marker elements, DOM elements and the mutation
    records the observer receives, the page types of `detect1CPageType`
    (horizon-1c-extension/content/content.js; the newer revision keeps it
    unchanged), and the replies of the message listener. */
module ContentDom {
  import opened JsText
  import opened Json

  // ---- the page

  /** What the script reads off the page: the URL, its path, the document
      title, and which of the selectors it queries match an element of the
      document. */
  datatype PageInfo = PageInfo(href: string, pathname: string, title: string, markers: set<string>)

  const DataVlSdt := "[data-vl-sdt]"
  const MainFrame := ".v8-main-frame"
  const CommandBar := "#SystemCommandBar"
  const ListTable := ".v8-dynamic-list-table"
  const DynamicForm := ".v8-dynamic-form"
  const ReportPanel := ".v8-report-panel"

  /** Some selector of `selectors` matches an element of the page. */
  predicate AnyMarker(markers: set<string>, selectors: seq<string>) {
    exists i :: 0 <= i < |selectors| && selectors[i] in markers
  }

  // ---- page types

  datatype PageType = List | Main | Form | Report | Generic

  /** `detect1CPageType`: list before main before form before report, and
      'generic' when none of the four selectors matches. */
  function DetectPageType(markers: set<string>): (t: PageType)
    ensures t == List <==> ListTable in markers
    ensures t == Main <==> MainFrame in markers && ListTable !in markers
    ensures t == Form <==> DynamicForm in markers && ListTable !in markers && MainFrame !in markers
    ensures t == Report <==> ReportPanel in markers && ListTable !in markers && MainFrame !in markers
                             && DynamicForm !in markers
    ensures t == Generic <==> ListTable !in markers && MainFrame !in markers && DynamicForm !in markers
                              && ReportPanel !in markers
  {
    if ListTable in markers then List
    else if MainFrame in markers then Main
    else if DynamicForm in markers then Form
    else if ReportPanel in markers then Report
    else Generic
  }

  /** What `transform`'s switch does on a page of type `t` when the types
      in `defined` have a transformation method: it runs that method, or
      throws the TypeError of calling a method the class does not
      define. */
  datatype Switched = Ran(pageType: PageType) | ThrewAt(pageType: PageType)

  function Switch(t: PageType, defined: set<PageType>): (r: Switched)
    ensures r.pageType == t
    ensures r.Ran? <==> t in defined
  {
    if t in defined then Ran(t) else ThrewAt(t)
  }

  /** The page types both revisions have a transformation method for:
      `transformListPage`, `transformMainInterface` and
      `transformFormPage`.  The report and generic branches call
      `transformReportPage` and `transformGenericPage`, which neither
      revision defines. */
  const DefinedTransforms: set<PageType> := {List, Main, Form}

  /** As written, `transform` throws exactly on a page with none of the
      list, main-frame and form markers: a report page or a generic
      one. */
  lemma SwitchThrowsAsWritten(markers: set<string>)
    ensures Switch(DetectPageType(markers), DefinedTransforms).ThrewAt? <==>
      ListTable !in markers && MainFrame !in markers && DynamicForm !in markers
    ensures ReportPanel in markers && ListTable !in markers && MainFrame !in markers && DynamicForm !in markers ==>
      Switch(DetectPageType(markers), DefinedTransforms) == ThrewAt(Report)
  {
  }

  /** The evidently intended switch: a method for every page type, so
      that every page type is transformed. */
  const AllTransforms: set<PageType> := {List, Main, Form, Report, Generic}

  lemma CorrectedSwitchRuns(markers: set<string>)
    ensures Switch(DetectPageType(markers), AllTransforms) == Ran(DetectPageType(markers))
    ensures DetectPageType(markers) in DefinedTransforms ==>
      Switch(DetectPageType(markers), DefinedTransforms) == Switch(DetectPageType(markers), AllTransforms)
  {
  }

  /** A transform that reached the switch and threw there. */
  predicate SwitchThrew(ran: Option<Switched>) {
    ran.Some? && ran.value.ThrewAt?
  }

  // ---- elements and mutations

  /** A DOM node's element side: its `classList` (missing on nodes without
      one), its attributes, and which selectors `querySelector` finds among
      its descendants (not the element itself). */
  datatype Element = Element(classList: Option<set<string>>, attributes: map<string, string>, inner: set<string>)

  /** An added node: its `nodeType` (1 for elements) and element side. */
  datatype Node = Node(nodeType: int, element: Element)

  /** A mutation record: its `type`, the nodes it added and its target. */
  datatype Mutation = Mutation(kind: string, addedNodes: seq<Node>, target: Element)

  /** `getAttribute(a)` is truthy: present and not empty. */
  predicate AttributeSet(e: Element, a: string) {
    a in e.attributes && e.attributes[a] != ""
  }

  /** A `childList` mutation added an element node that `p` accepts. */
  predicate AddsWhere(m: Mutation, p: Element -> bool) {
    m.kind == "childList" &&
    exists j :: 0 <= j < |m.addedNodes| && m.addedNodes[j].nodeType == 1 && p(m.addedNodes[j].element)
  }

  // ---- replies

  /** The reply the message listener sends, if any. */
  datatype Reply = NoReply | Replied(response: Json) | Threw

  const Success: Json := JObj(map["success" := JBool(true)])

}
