/** The component library of the content script
    (content/horizon-components.js): the registry `createComponent` looks
    types up in, the option defaults and class tables of the card, button
    and input components, their `mounted` flag, the theme and animation
    managers, and the two ways style blocks are injected. */
module Components {
  import opened JsText
  import opened Json
  import opened Dom

  // ------------------------------------------------ the registry

  /** The fifteen `componentRegistry.set(type, Class)` calls of
      `registerComponents`, in order. */
  const Registrations: seq<(string, string)> := [
    ("card", "HorizonCard"), ("button", "HorizonButton"), ("input", "HorizonInput"),
    ("table", "HorizonTable"), ("modal", "HorizonModal"), ("sidebar", "HorizonSidebar"),
    ("header", "HorizonHeader"), ("form", "HorizonForm"), ("tabs", "HorizonTabs"),
    ("dropdown", "HorizonDropdown"), ("toast", "HorizonToast"), ("loader", "HorizonLoader"),
    ("badge", "HorizonBadge"), ("avatar", "HorizonAvatar"), ("progress", "HorizonProgress")]

  const RegisteredTypes: seq<string> := [
    "card", "button", "input", "table", "modal", "sidebar", "header", "form",
    "tabs", "dropdown", "toast", "loader", "badge", "avatar", "progress"]

  /** The component classes the file itself declares. */
  const DeclaredClasses: set<string> := {"HorizonCard", "HorizonButton", "HorizonInput"}

  /** The map after `start.set(name, value)` for each entry in order: a
      later entry for the same name replaces an earlier one. */
  function Assigned(start: map<string, string>, entries: seq<(string, string)>): map<string, string>
    decreases |entries|
  {
    if entries == [] then start
    else
      var n := |entries| - 1;
      Assigned(start, entries[..n])[entries[n].0 := entries[n].1]
  }

  /** Every entry's name is in the result, with the value of its last
      entry. */
  lemma {:induction false} AssignedEntries(start: map<string, string>, entries: seq<(string, string)>)
    ensures var r := Assigned(start, entries);
      && (forall i :: 0 <= i < |entries| ==> entries[i].0 in r)
      && (forall i :: 0 <= i < |entries| && (forall j :: i < j < |entries| ==> entries[j].0 != entries[i].0) ==>
            r[entries[i].0] == entries[i].1)
    decreases |entries|
  {
    if entries != [] {
      var n := |entries| - 1;
      var front := entries[..n];
      AssignedEntries(start, front);
      assert forall i :: 0 <= i < n ==> front[i] == entries[i];
    }
  }

  /** A name no entry sets keeps its value from `start`, or stays absent. */
  lemma {:induction false} AssignedOthers(start: map<string, string>, entries: seq<(string, string)>, k: string)
    requires forall i :: 0 <= i < |entries| ==> entries[i].0 != k
    ensures k in Assigned(start, entries) <==> k in start
    ensures k in start ==> Assigned(start, entries)[k] == start[k]
    decreases |entries|
  {
    if entries != [] {
      var n := |entries| - 1;
      var front := entries[..n];
      assert forall i :: 0 <= i < n ==> front[i] == entries[i];
      AssignedOthers(start, front, k);
    }
  }

  /** The index of the first call whose class is not defined (evaluating it
      throws a `ReferenceError`), or `|regs|` when every class is. */
  function FirstUndefined(regs: seq<(string, string)>, defined: set<string>): (r: nat)
    ensures r <= |regs|
    ensures forall i :: 0 <= i < r ==> regs[i].1 in defined
    ensures r < |regs| ==> regs[r].1 !in defined
  {
    if regs == [] || regs[0].1 !in defined then 0 else 1 + FirstUndefined(regs[1..], defined)
  }

  /** With every class defined, the fifteen types and nothing else are
      registered. */
  lemma RegistryComplete()
    ensures |Registrations| == |RegisteredTypes| == 15
    ensures forall i :: 0 <= i < |Registrations| ==> Registrations[i].0 == RegisteredTypes[i]
    ensures forall t :: t in Assigned(map[], Registrations) <==> t in RegisteredTypes
  {
    var regs := Registrations;
    AssignedEntries(map[], regs);
    assert forall i :: 0 <= i < |regs| ==> regs[i].0 == RegisteredTypes[i];
    forall t | t in RegisteredTypes ensures t in Assigned(map[], regs) {
      var i :| 0 <= i < |RegisteredTypes| && RegisteredTypes[i] == t;
      assert regs[i].0 == t;
    }
    forall t | t !in RegisteredTypes ensures t !in Assigned(map[], regs) {
      AssignedOthers(map[], regs, t);
    }
  }

  /** With only the classes this file declares, the fourth call throws and
      only the card, button and input types are registered. */
  lemma RegistryAsDeclared()
    ensures FirstUndefined(Registrations, DeclaredClasses) == 3
    ensures Assigned(map[], Registrations[..3]).Keys == {"card", "button", "input"}
  {
    var regs := Registrations;
    assert regs[0].1 in DeclaredClasses && regs[1].1 in DeclaredClasses && regs[2].1 in DeclaredClasses;
    assert regs[3].1 !in DeclaredClasses;
    assert regs[1..][1..][1..][0] == regs[3];
    var front := regs[..3];
    assert front == [("card", "HorizonCard"), ("button", "HorizonButton"), ("input", "HorizonInput")];
    AssignedEntries(map[], front);
    forall t | t !in {"card", "button", "input"} ensures t !in Assigned(map[], front) {
      AssignedOthers(map[], front, t);
    }
  }

  const ComponentStyles := "horizon-components-styles"

  /** `HorizonComponents`: the registry, a theme manager and an animation
      manager.  `thrown` records a `ReferenceError` out of
      `registerComponents`.  Which classes exist in the page's global scope
      is a parameter (`defined`), since other scripts may declare them. */
  class Library {
    var registry: map<string, string>
    var thrown: bool
    var themes: ThemeManager
    var animations: AnimationManager
    const page: Page

    /** `constructor` and `init`: registering throws out of the constructor
        before the global styles are injected. */
    constructor(page: Page, defined: set<string>)
      modifies page
      ensures this.page == page
      ensures registry == Assigned(map[], Registrations[..FirstUndefined(Registrations, defined)])
      ensures thrown <==> FirstUndefined(Registrations, defined) < |Registrations|
      ensures page.styleIds == if thrown then old(page.styleIds) else old(page.styleIds) + [ComponentStyles]
      ensures page.rootVars == old(page.rootVars) && page.rootClasses == old(page.rootClasses)
      ensures fresh(themes) && fresh(animations)
      ensures themes.currentTheme == JStr("light") && animations.animationsEnabled == JBool(true)
    {
      this.page := page;
      registry := map[];
      thrown := false;
      themes := new ThemeManager(page);
      animations := new AnimationManager(page);
      new;
      RegisterComponents(defined);
      if !thrown {
        page.InjectStyle(ComponentStyles);
      }
    }

    /** `registerComponents`: the fifteen calls in order, until the first
        one naming a class that does not exist. */
    method RegisterComponents(defined: set<string>)
      modifies this
      requires registry == map[] && !thrown
      ensures registry == Assigned(map[], Registrations[..FirstUndefined(Registrations, defined)])
      ensures thrown <==> FirstUndefined(Registrations, defined) < |Registrations|
      ensures themes == old(themes) && animations == old(animations)
    {
      RegisterInOrder(Registrations, defined);
    }

    /** The `componentRegistry.set(type, Class)` calls of `regs`, one after
        another; evaluating an undefined class throws. */
    method RegisterInOrder(regs: seq<(string, string)>, defined: set<string>)
      modifies this
      requires registry == map[] && !thrown
      ensures registry == Assigned(map[], regs[..FirstUndefined(regs, defined)])
      ensures thrown <==> FirstUndefined(regs, defined) < |regs|
      ensures themes == old(themes) && animations == old(animations)
    {
      var stop := FirstUndefined(regs, defined);
      var i := 0;
      while i < |regs|
        invariant 0 <= i <= stop
        invariant registry == Assigned(map[], regs[..i])
        invariant !thrown
        invariant themes == old(themes) && animations == old(animations)
      {
        if regs[i].1 !in defined {
          thrown := true;
          return;
        }
        assert regs[..i + 1][..i] == regs[..i];
        registry := registry[regs[i].0 := regs[i].1];
        i := i + 1;
      }
      assert regs[..i] == regs;
    }

    /** `createComponent`: the class registered for `name`, or `null`. */
    function CreateComponent(name: string): (r: Option<string>)
      reads this
      ensures r.Some? <==> name in registry
      ensures r.Some? ==> r.value == registry[name]
    {
      if name in registry then Some(registry[name]) else None
    }
  }

  /** Once every class is defined, `createComponent` makes an instance for
      exactly the fifteen registered types and gives `null` for any other. */
  lemma CreateWhenComplete(registry: map<string, string>, name: string)
    requires registry == Assigned(map[], Registrations)
    ensures name in registry <==> name in RegisteredTypes
  {
    RegistryComplete();
  }

  // ------------------------------------------------ options and classes

  /** The defaults `HorizonBaseComponent` puts under the caller's options. */
  const BaseDefaults: map<string, Json> := map["className" := JStr(""), "id" := JStr("")]

  const CardDefaults: map<string, Json> := map[
    "title" := JStr(""), "content" := JStr(""), "footer" := JStr(""), "variant" := JStr("default")]

  const ButtonDefaults: map<string, Json> := map[
    "text" := JStr("Button"), "variant" := JStr("primary"), "size" := JStr("md"),
    "disabled" := JBool(false), "loading" := JBool(false), "icon" := JNull, "onClick" := JNull]

  const InputDefaults: map<string, Json> := map[
    "type" := JStr("text"), "placeholder" := JStr(""), "label" := JStr(""), "value" := JStr(""),
    "disabled" := JBool(false), "required" := JBool(false), "error" := JStr(""),
    "size" := JStr("md"), "variant" := JStr("default")]

  /** A subclass's `this.options`: `{ ...defaults, ...{ className: '', id:
      '', ...options } }`.  What the caller supplies wins, then the base
      defaults, then the subclass's. */
  function ComponentOptions(defaults: map<string, Json>, options: Json): (r: map<string, Json>)
    ensures r == defaults + (BaseDefaults + OwnProperties(options))
  {
    var base := Spread(JObj(BaseDefaults), options);
    Spread(JObj(defaults), base).fields
  }

  const CardVariants: map<string, string> := map[
    "default" := "horizon-card-default", "elevated" := "horizon-card-elevated",
    "outlined" := "horizon-card-outlined"]

  const ButtonVariants: map<string, string> := map[
    "primary" := "horizon-button-primary", "secondary" := "horizon-button-secondary",
    "outline" := "horizon-button-outline", "ghost" := "horizon-button-ghost",
    "danger" := "horizon-button-danger"]

  const ButtonSizes: map<string, string> := map[
    "sm" := "horizon-button-sm", "md" := "horizon-button-md", "lg" := "horizon-button-lg"]

  const InputSizes: map<string, string> := map[
    "sm" := "horizon-input-sm", "md" := "horizon-input-md", "lg" := "horizon-input-lg"]

  const InputVariants: map<string, string> := map[
    "default" := "horizon-input-default", "filled" := "horizon-input-filled",
    "flushed" := "horizon-input-flushed"]

  /** The class the table gives the component's option `name`. */
  function OptionClass(table: map<string, string>, options: map<string, Json>, name: string, dflt: string): (r: string)
    requires dflt in table
    ensures r in table.Values
  {
    LookupOr(table, Member(JObj(options), name), dflt)
  }

  /** An option the caller leaves out takes the subclass default, so its
      class is the fallback entry; one the caller supplies is looked up. */
  lemma {:induction false} ChosenClass(table: map<string, string>, dflt: string, defaults: map<string, Json>, options: Json, name: string)
    requires dflt in table && forall k :: k in table ==> table[k] != ""
    requires name in defaults && defaults[name] == JStr(dflt) && name !in BaseDefaults
    ensures var opts := ComponentOptions(defaults, options);
      && (name !in OwnProperties(options) ==> OptionClass(table, opts, name, dflt) == table[dflt])
      && (name in OwnProperties(options) ==>
            OptionClass(table, opts, name, dflt) == LookupOr(table, OwnProperties(options)[name], dflt))
  {
    var opts := ComponentOptions(defaults, options);
    if name !in OwnProperties(options) {
      assert opts[name] == JStr(dflt);
      assert Member(JObj(opts), name) == JStr(dflt);
    } else {
      assert Member(JObj(opts), name) == OwnProperties(options)[name];
    }
  }

  /** A card whose caller names no variant is 'default'. */
  lemma CardDefaultClass(options: Json)
    ensures "variant" !in OwnProperties(options) ==>
      OptionClass(CardVariants, ComponentOptions(CardDefaults, options), "variant", "default") == "horizon-card-default"
  {
    ChosenClass(CardVariants, "default", CardDefaults, options, "variant");
  }

  /** A button whose caller names no variant is 'primary'. */
  lemma ButtonDefaultVariant(options: Json)
    ensures "variant" !in OwnProperties(options) ==>
      OptionClass(ButtonVariants, ComponentOptions(ButtonDefaults, options), "variant", "primary") == "horizon-button-primary"
  {
    ChosenClass(ButtonVariants, "primary", ButtonDefaults, options, "variant");
  }

  /** A button whose caller names no size is 'md'. */
  lemma ButtonDefaultSize(options: Json)
    ensures "size" !in OwnProperties(options) ==>
      OptionClass(ButtonSizes, ComponentOptions(ButtonDefaults, options), "size", "md") == "horizon-button-md"
  {
    ChosenClass(ButtonSizes, "md", ButtonDefaults, options, "size");
  }

  /** An input whose caller names no size is 'md'. */
  lemma InputDefaultSize(options: Json)
    ensures "size" !in OwnProperties(options) ==>
      OptionClass(InputSizes, ComponentOptions(InputDefaults, options), "size", "md") == "horizon-input-md"
  {
    ChosenClass(InputSizes, "md", InputDefaults, options, "size");
  }

  /** An input whose caller names no variant is 'default'. */
  lemma InputDefaultVariant(options: Json)
    ensures "variant" !in OwnProperties(options) ==>
      OptionClass(InputVariants, ComponentOptions(InputDefaults, options), "variant", "default") == "horizon-input-default"
  {
    ChosenClass(InputVariants, "default", InputDefaults, options, "variant");
  }

  // ------------------------------------------------ button content

  /** The parts of a button's `innerHTML` that `updateContent` writes. */
  datatype Part = Spinner | Icon(icon: Json) | Label(text: Json)

  /** `updateContent`: a spinner while loading, else the icon if there is
      one, and always the text last. */
  function ButtonParts(options: map<string, Json>): (r: seq<Part>)
    ensures 1 <= |r| <= 2 && r[|r| - 1] == Label(Member(JObj(options), "text"))
    ensures r[0] == Spinner <==> Truthy(Member(JObj(options), "loading"))
    ensures r[0].Icon? <==> !Truthy(Member(JObj(options), "loading")) && Truthy(Member(JObj(options), "icon"))
  {
    var o := JObj(options);
    var text := [Label(Member(o, "text"))];
    if Truthy(Member(o, "loading")) then [Spinner] + text
    else if Truthy(Member(o, "icon")) then [Icon(Member(o, "icon"))] + text
    else text
  }

  // ------------------------------------------------ components

  datatype Kind = BaseKind | CardKind | ButtonKind | InputKind

  const CardStyles := "horizon-card-styles"
  const ButtonStyles := "horizon-button-styles"
  const InputStyles := "horizon-input-styles"

  /** `HorizonBaseComponent` and its card, button and input subclasses.
      `hasElement` says whether `this.element` is set, `parentNode` is the
      element's parent (parents are named by numbers), `disabled` and
      `parts` are the button element's `disabled` and content. */
  class Component {
    const kind: Kind
    var options: map<string, Json>
    var hasElement: bool
    var parentNode: Option<nat>
    var mounted: bool
    var disabled: bool
    var parts: seq<Part>

    /** `mounted` is only ever set while the element is in a parent. */
    predicate Valid()
      reads this
    {
      mounted ==> hasElement && parentNode.Some?
    }

    /** `new HorizonBaseComponent(options)`: no element yet. */
    constructor Plain(options: Json)
      ensures kind == BaseKind && Valid() && !mounted && !hasElement
      ensures this.options == Spread(JObj(BaseDefaults), options).fields
    {
      kind := BaseKind;
      this.options := Spread(JObj(BaseDefaults), options).fields;
      hasElement := false;
      parentNode := None;
      mounted := false;
      disabled := false;
      parts := [];
    }

    /** `new HorizonCard(options)`: a detached element and a guarded style
        injection. */
    constructor Card(options: Json, page: Page)
      modifies page
      ensures kind == CardKind && Valid() && !mounted && hasElement && parentNode == None
      ensures this.options == ComponentOptions(CardDefaults, options)
      ensures page.styleIds == InjectOnce(old(page.styleIds), CardStyles)
      ensures page.rootVars == old(page.rootVars) && page.rootClasses == old(page.rootClasses)
    {
      kind := CardKind;
      this.options := ComponentOptions(CardDefaults, options);
      hasElement := true;
      parentNode := None;
      mounted := false;
      disabled := false;
      parts := [];
      new;
      page.InjectStyleOnce(CardStyles);
    }

    /** `new HorizonButton(options)`: the content, the guarded style
        injection, and `disabled` from the option. */
    constructor Button(options: Json, page: Page)
      modifies page
      ensures kind == ButtonKind && Valid() && !mounted && hasElement && parentNode == None
      ensures this.options == ComponentOptions(ButtonDefaults, options)
      ensures parts == ButtonParts(this.options)
      ensures disabled == Truthy(Member(JObj(this.options), "disabled"))
      ensures page.styleIds == InjectOnce(old(page.styleIds), ButtonStyles)
      ensures page.rootVars == old(page.rootVars) && page.rootClasses == old(page.rootClasses)
    {
      kind := ButtonKind;
      var opts := ComponentOptions(ButtonDefaults, options);
      this.options := opts;
      hasElement := true;
      parentNode := None;
      mounted := false;
      parts := ButtonParts(opts);
      disabled := Truthy(Member(JObj(opts), "disabled"));
      new;
      page.InjectStyleOnce(ButtonStyles);
    }

    /** `new HorizonInput(options)`. */
    constructor Input(options: Json, page: Page)
      modifies page
      ensures kind == InputKind && Valid() && !mounted && hasElement && parentNode == None
      ensures this.options == ComponentOptions(InputDefaults, options)
      ensures page.styleIds == InjectOnce(old(page.styleIds), InputStyles)
      ensures page.rootVars == old(page.rootVars) && page.rootClasses == old(page.rootClasses)
    {
      kind := InputKind;
      this.options := ComponentOptions(InputDefaults, options);
      hasElement := true;
      parentNode := None;
      mounted := false;
      disabled := false;
      parts := [];
      new;
      page.InjectStyleOnce(InputStyles);
    }

    /** `mount(parent)`: only with an element and a parent. */
    method Mount(parent: Option<nat>)
      requires Valid()
      modifies this
      ensures Valid()
      ensures hasElement && parent.Some? ==> mounted && parentNode == parent
      ensures !(hasElement && parent.Some?) ==> mounted == old(mounted) && parentNode == old(parentNode)
      ensures options == old(options) && hasElement == old(hasElement)
      ensures disabled == old(disabled) && parts == old(parts)
    {
      if hasElement && parent.Some? {
        parentNode := parent;
        mounted := true;
      }
    }

    /** `unmount()`: only when the element is in a parent. */
    method Unmount()
      requires Valid()
      modifies this
      ensures Valid()
      ensures hasElement && old(parentNode).Some? ==> !mounted && parentNode == None
      ensures !(hasElement && old(parentNode).Some?) ==> mounted == old(mounted) && parentNode == old(parentNode)
      ensures options == old(options) && hasElement == old(hasElement)
      ensures disabled == old(disabled) && parts == old(parts)
    {
      if hasElement && parentNode.Some? {
        parentNode := None;
        mounted := false;
      }
    }

    /** `setLoading(loading)`: the option and the element's `disabled`
        follow the argument, and the content is rewritten, so a loading
        button shows the spinner and cannot be clicked. */
    method SetLoading(loading: Json)
      requires kind == ButtonKind
      modifies this
      ensures options == old(options)["loading" := loading]
      ensures disabled == Truthy(loading)
      ensures parts == ButtonParts(options)
      ensures (parts[0] == Spinner) == disabled
      ensures mounted == old(mounted) && parentNode == old(parentNode) && hasElement == old(hasElement)
    {
      options := options["loading" := loading];
      disabled := Truthy(loading);
      parts := ButtonParts(options);
      assert Member(JObj(options), "loading") == loading;
    }

    /** `getVariantClass` of a card, button or input. */
    function VariantClass(): (r: string)
      requires kind != BaseKind
      reads this
      ensures kind == CardKind ==> r in CardVariants.Values
      ensures kind == ButtonKind ==> r in ButtonVariants.Values
      ensures kind == InputKind ==> r in InputVariants.Values
    {
      match kind
      case CardKind => OptionClass(CardVariants, options, "variant", "default")
      case ButtonKind => OptionClass(ButtonVariants, options, "variant", "primary")
      case InputKind => OptionClass(InputVariants, options, "variant", "default")
    }

    /** `getSizeClass` of a button or input. */
    function SizeClass(): (r: string)
      requires kind == ButtonKind || kind == InputKind
      reads this
      ensures kind == ButtonKind ==> r in ButtonSizes.Values
      ensures kind == InputKind ==> r in InputSizes.Values
    {
      if kind == ButtonKind then OptionClass(ButtonSizes, options, "size", "md")
      else OptionClass(InputSizes, options, "size", "md")
    }
  }

  /** Mounting into a parent and unmounting again leaves the component
      detached and not mounted. */
  method MountThenUnmount(c: Component, parent: nat)
    requires c.Valid() && c.hasElement
    modifies c
    ensures c.Valid() && !c.mounted && c.parentNode == None
  {
    c.Mount(Some(parent));
    c.Unmount();
  }

  /** Creating any number of cards leaves exactly one card style block,
      while the library's global block is added once per library. */
  method TwoCardsTwoLibraries(page: Page, defined: set<string>)
    requires Count(page.styleIds, CardStyles) <= 1
    requires forall i :: 0 <= i < |Registrations| ==> Registrations[i].1 in defined
    modifies page
    ensures Count(page.styleIds, CardStyles) == 1
    ensures Count(page.styleIds, ComponentStyles) == Count(old(page.styleIds), ComponentStyles) + 2
  {
    var a := new Component.Card(JObj(map[]), page);
    var b := new Component.Card(JObj(map[]), page);
    InjectOnceIdempotent(old(page.styleIds), CardStyles);
    var ids := page.styleIds;
    var l1 := new Library(page, defined);
    var l2 := new Library(page, defined);
    InjectAlwaysDuplicates(ids, ComponentStyles);
    CountAppend(ids, [ComponentStyles], CardStyles);
    CountAppend(ids + [ComponentStyles], [ComponentStyles], CardStyles);
  }

  // ------------------------------------------------ theme manager

  /** The custom properties of each theme, in `Object.entries` order. */
  const Themes: map<string, seq<(string, string)>> := map[
    "light" := [
      ("--horizon-bg-primary", "#ffffff"), ("--horizon-bg-secondary", "#f7fafc"),
      ("--horizon-text-primary", "#1a202c"), ("--horizon-text-secondary", "#4a5568")],
    "dark" := [
      ("--horizon-bg-primary", "#1a202c"), ("--horizon-bg-secondary", "#2d3748"),
      ("--horizon-text-primary", "#f7fafc"), ("--horizon-text-secondary", "#cbd5e0")]]

  /** `HorizonThemeManager`.  `currentTheme` holds the value `setTheme`
      was given, which names a theme as a property key: `["dark"]` stays
      an array. */
  class ThemeManager {
    var currentTheme: Json
    const page: Page

    predicate Valid()
      reads this
    {
      KeyText(currentTheme).Some? && KeyText(currentTheme).value in Themes
    }

    constructor(page: Page)
      ensures currentTheme == JStr("light") && Valid() && this.page == page
    {
      currentTheme := JStr("light");
      this.page := page;
    }

    /** `setTheme(theme)`: a value naming a theme the table has becomes
        current, as given, and the theme's custom properties are set on the
        root; any other is ignored. */
    method SetTheme(theme: Json)
      modifies this, page
      ensures Valid() == (old(Valid()) || (KeyText(theme).Some? && KeyText(theme).value in Themes))
      ensures KeyText(theme).Some? && KeyText(theme).value in Themes ==>
        currentTheme == theme
        && page.rootVars == Assigned(old(page.rootVars), Themes[KeyText(theme).value])
      ensures !(KeyText(theme).Some? && KeyText(theme).value in Themes) ==>
        currentTheme == old(currentTheme) && page.rootVars == old(page.rootVars)
      ensures page.rootClasses == old(page.rootClasses) && page.styleIds == old(page.styleIds)
    {
      var k := KeyText(theme);
      if k.Some? && k.value in Themes {
        currentTheme := theme;
        ApplyTheme(k.value);
      }
    }

    /** `applyTheme`: each property of the theme set on the root, in
        order. */
    method ApplyTheme(theme: string)
      requires theme in Themes
      modifies page
      ensures page.rootVars == Assigned(old(page.rootVars), Themes[theme])
      ensures page.rootClasses == old(page.rootClasses) && page.styleIds == old(page.styleIds)
    {
      var entries := Themes[theme];
      for i := 0 to |entries|
        invariant page.rootVars == Assigned(old(page.rootVars), entries[..i])
        invariant page.rootClasses == old(page.rootClasses) && page.styleIds == old(page.styleIds)
      {
        assert entries[..i + 1][..i] == entries[..i];
        page.SetRootVar(entries[i].0, entries[i].1);
      }
      assert entries[..|entries|] == entries;
    }

    /** `getTheme`: the value last stored, which names one of the table's
        themes as a property key. */
    function GetTheme(): (r: Json)
      requires Valid()
      reads this
      ensures r == currentTheme
      ensures KeyText(r) == Some("light") || KeyText(r) == Some("dark")
    {
      currentTheme
    }
  }

  // ------------------------------------------------ animation manager

  const DurationVar := "--horizon-animation-duration"

  /** The inline style of an element the animations touch. */
  class Styled {
    var opacity: string
    var transform: string
    var transition: string

    constructor()
      ensures opacity == "" && transform == "" && transition == ""
    {
      opacity := "";
      transform := "";
      transition := "";
    }
  }

  const SlideFrom: map<string, string> := map[
    "left" := "translateX(-100%)", "right" := "translateX(100%)",
    "up" := "translateY(-100%)", "down" := "translateY(100%)"]

  /** `HorizonAnimationManager`.  The animation-frame callbacks that end
      each animation are not part of this model. */
  class AnimationManager {
    var animationsEnabled: Json
    const page: Page

    constructor(page: Page)
      ensures animationsEnabled == JBool(true) && this.page == page
    {
      animationsEnabled := JBool(true);
      this.page := page;
    }

    /** `setAnimationsEnabled(enabled)`: the value is stored as given and
        the duration property follows its truthiness. */
    method SetAnimationsEnabled(enabled: Json)
      modifies this, page
      ensures animationsEnabled == enabled
      ensures page.rootVars == old(page.rootVars)[DurationVar := if Truthy(enabled) then "0.2s" else "0s"]
      ensures page.rootClasses == old(page.rootClasses) && page.styleIds == old(page.styleIds)
    {
      animationsEnabled := enabled;
      page.SetRootVar(DurationVar, if Truthy(enabled) then "0.2s" else "0s");
    }

    /** `fadeIn(element, duration)`: nothing when animations are off,
        otherwise the element starts transparent with an opacity
        transition. */
    method FadeIn(e: Styled, duration: nat)
      modifies e
      ensures !Truthy(animationsEnabled) ==>
        e.opacity == old(e.opacity) && e.transition == old(e.transition)
      ensures Truthy(animationsEnabled) ==>
        e.opacity == "0" && e.transition == "opacity " + NatToString(duration) + "ms ease"
      ensures e.transform == old(e.transform)
    {
      if !Truthy(animationsEnabled) {
        return;
      }
      e.opacity := "0";
      e.transition := "opacity " + NatToString(duration) + "ms ease";
    }

    /** `slideIn(element, direction = 'left', duration = 300)`: nothing when
        animations are off, otherwise the element starts off-screen on the
        named side (the left one when no direction is passed) with a
        transform transition.  An unknown direction assigns `undefined`,
        which the style declaration rejects, keeping the old transform.  The
        duration's default is the caller's: `duration` is the value used. */
    method SlideIn(e: Styled, direction: Json, duration: nat)
      modifies e
      ensures !Truthy(animationsEnabled) ==>
        e.transform == old(e.transform) && e.transition == old(e.transition)
      ensures Truthy(animationsEnabled) ==>
        var k := if direction.JUndefined? then Some("left") else KeyText(direction);
        && e.transform == (if k.Some? && k.value in SlideFrom then SlideFrom[k.value] else old(e.transform))
        && e.transition == "transform " + NatToString(duration) + "ms ease"
      ensures e.opacity == old(e.opacity)
    {
      if !Truthy(animationsEnabled) {
        return;
      }
      var k := if direction.JUndefined? then Some("left") else KeyText(direction);
      if k.Some? && k.value in SlideFrom {
        e.transform := SlideFrom[k.value];
      }
      e.transition := "transform " + NatToString(duration) + "ms ease";
    }
  }
}
