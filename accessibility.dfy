/** The accessibility manager of the content script: the keyboard focus
    index, menu arrow navigation, spoken descriptions and the visual
    accessibility settings (horizon-1c-extension/content/horizon-accessibility.js). */
module Accessibility {
  import opened JsText
  import opened Json
  import opened Dom

  /** `a % n` on JavaScript numbers with integral operands: the remainder
      takes the sign of the dividend. */
  function JsRem(a: int, n: int): (r: int)
    requires n != 0
    ensures a >= 0 && n > 0 ==> 0 <= r < n
    ensures a < 0 && n > 0 ==> -n < r <= 0
  {
    var m := if n < 0 then -n else n;
    if a >= 0 then a % m else -((-a) % m)
  }

  // ------------------------------------------------ the focus index as written

  /** `currentFocusIndex` as the source keeps it: a number, which becomes
      `NaN` once `focusNext` runs with no focusable elements. */
  datatype FocusIndex = At(i: int) | NaN

  /** `focusNext` as written: `(i + 1) % n`, and `x % 0` is `NaN`. */
  function NextAsWritten(idx: FocusIndex, n: nat): (r: FocusIndex)
    ensures n == 0 ==> r == NaN
    ensures n > 0 && idx.At? && idx.i >= -1 ==> r.At? && 0 <= r.i < n
  {
    match idx
    case NaN => NaN
    case At(i) => if n == 0 then NaN else At(JsRem(i + 1, n))
  }

  /** `focusPrevious` as written: `NaN <= 0` is false and `NaN - 1` is
      `NaN`. */
  function PreviousAsWritten(idx: FocusIndex, n: nat): (r: FocusIndex)
  {
    match idx
    case NaN => NaN
    case At(i) => if i <= 0 then At(n - 1) else At(i - 1)
  }

  /** One Tab press with no focusable element leaves `NaN` behind, and no
      later Tab or Shift+Tab press focuses anything again, however many
      elements appear meanwhile: only Home and End recover. */
  lemma {:induction false} NaNIsSticky(idx: FocusIndex, presses: seq<bool>, sizes: seq<nat>)
    requires |presses| == |sizes|
    ensures var start := NextAsWritten(idx, 0);
      && start == NaN
      && Navigate(start, presses, sizes) == NaN
  {
    NavigateFromNaN(presses, sizes);
  }

  /** Tab (true) and Shift+Tab (false) presses with the element count
      current at each press, as written. */
  function Navigate(idx: FocusIndex, presses: seq<bool>, sizes: seq<nat>): FocusIndex
    requires |presses| == |sizes|
    decreases |presses|
  {
    if presses == [] then idx
    else
      var next := if presses[0] then NextAsWritten(idx, sizes[0]) else PreviousAsWritten(idx, sizes[0]);
      Navigate(next, presses[1..], sizes[1..])
  }

  lemma {:induction false} NavigateFromNaN(presses: seq<bool>, sizes: seq<nat>)
    requires |presses| == |sizes|
    ensures Navigate(NaN, presses, sizes) == NaN
  {
    if presses != [] {
      NavigateFromNaN(presses[1..], sizes[1..]);
    }
  }

  // ------------------------------------------------ the focus index, corrected

  /** `focusNext` as evidently intended: wrap around, and with no focusable
      element leave the index where it is. */
  function NextIndex(i: int, n: nat): (r: int)
    ensures n > 0 && i >= -1 ==> 0 <= r < n
    ensures n == 0 ==> r == i
  {
    if n == 0 then i else JsRem(i + 1, n)
  }

  /** `focusPrevious`: wrap back to the last element from the first one (or
      from the initial -1). */
  function PreviousIndex(i: int, n: nat): (r: int)
    ensures n > 0 && i <= n ==> 0 <= r < n
  {
    if i <= 0 then n - 1 else i - 1
  }

  /** Both agree with the source whenever there is something to focus. */
  lemma CorrectedAgrees(i: int, n: nat)
    requires n > 0
    ensures NextAsWritten(At(i), n) == At(NextIndex(i, n))
    ensures PreviousAsWritten(At(i), n) == At(PreviousIndex(i, n))
  {
  }

  /** Within range, next and previous undo each other. */
  lemma NextPreviousInverse(i: int, n: nat)
    requires 0 <= i < n
    ensures PreviousIndex(NextIndex(i, n), n) == i
    ensures NextIndex(PreviousIndex(i, n), n) == i
  {
    if i + 1 < n {
      assert (i + 1) % n == i + 1;
    } else {
      assert (i + 1) % n == 0;
    }
    if i == 0 {
      assert n % n == 0;
    } else {
      assert i % n == i;
    }
  }

  /** An index the corrected operations can produce: the initial -1, or at
      least 0 (a shrunken list can leave it past the end). */
  predicate IndexSane(i: int) { i >= -1 }

  class AccessibilityManager {
    /** The ids of the focusable elements, in document order. */
    var focusable: seq<int>
    var currentFocusIndex: int
    /** The element that got focus last. */
    var focused: Option<int>
    var settings: map<string, Json>
    var page: Page

    predicate Valid()
      reads this
    {
      IndexSane(currentFocusIndex)
    }

    constructor(page: Page)
      ensures Valid()
      ensures focusable == [] && currentFocusIndex == -1 && focused == None
      ensures settings == DefaultSettings && this.page == page
    {
      focusable := [];
      currentFocusIndex := -1;
      focused := None;
      settings := DefaultSettings;
      this.page := page;
    }

    /** `updateFocusableElements`, with the query and the visibility filter
        already done by the caller. */
    method UpdateFocusableElements(found: seq<int>)
      requires Valid()
      modifies this
      ensures Valid()
      ensures focusable == found
      ensures currentFocusIndex == old(currentFocusIndex) && focused == old(focused)
      ensures settings == old(settings) && page == old(page)
    {
      focusable := found;
    }

    /** `focusElement(focusableElements[i])`: nothing happens when there is
        no element at that index. */
    method FocusAt(i: int)
      modifies this
      ensures focused == if 0 <= i < |focusable| then Some(focusable[i]) else old(focused)
      ensures focusable == old(focusable) && currentFocusIndex == old(currentFocusIndex)
      ensures settings == old(settings) && page == old(page)
    {
      if 0 <= i < |focusable| {
        focused := Some(focusable[i]);
      }
    }

    /** `focusNext`, with the corrected index of `NextIndex`: with nothing to
        focus the index is kept, where the source stores NaN. */
    method FocusNext()
      requires Valid()
      modifies this
      ensures Valid()
      ensures currentFocusIndex == NextIndex(old(currentFocusIndex), |focusable|)
      ensures |focusable| > 0 ==>
        (0 <= currentFocusIndex < |focusable| && focused == Some(focusable[currentFocusIndex]))
      ensures |focusable| == 0 ==> focused == old(focused)
      ensures focusable == old(focusable) && settings == old(settings) && page == old(page)
    {
      currentFocusIndex := NextIndex(currentFocusIndex, |focusable|);
      FocusAt(currentFocusIndex);
    }

    method FocusPrevious()
      requires Valid()
      modifies this
      ensures Valid()
      ensures currentFocusIndex == PreviousIndex(old(currentFocusIndex), |focusable|)
      ensures |focusable| > 0 && old(currentFocusIndex) <= |focusable| ==>
        (0 <= currentFocusIndex < |focusable| && focused == Some(focusable[currentFocusIndex]))
      ensures focusable == old(focusable) && settings == old(settings) && page == old(page)
    {
      currentFocusIndex := PreviousIndex(currentFocusIndex, |focusable|);
      FocusAt(currentFocusIndex);
    }

    method FocusFirst()
      requires Valid()
      modifies this
      ensures Valid()
      ensures currentFocusIndex == 0
      ensures focused == if |focusable| > 0 then Some(focusable[0]) else old(focused)
      ensures focusable == old(focusable) && settings == old(settings) && page == old(page)
    {
      currentFocusIndex := 0;
      FocusAt(0);
    }

    method FocusLast()
      requires Valid()
      modifies this
      ensures Valid()
      ensures currentFocusIndex == |focusable| - 1
      ensures focused == if |focusable| > 0 then Some(focusable[|focusable| - 1]) else old(focused)
      ensures focusable == old(focusable) && settings == old(settings) && page == old(page)
    {
      currentFocusIndex := |focusable| - 1;
      FocusAt(currentFocusIndex);
    }

    /** `updateSettings`: the supplied keys override, the others stay; then
        the visual features follow the new settings. */
    method UpdateSettings(newSettings: Json)
      modifies this, page
      ensures settings == Spread(JObj(old(settings)), newSettings).fields
      ensures forall k :: k in settings && k !in OwnProperties(newSettings) ==> settings[k] == old(settings)[k]
      ensures forall k :: k in OwnProperties(newSettings) ==> k in settings && settings[k] == OwnProperties(newSettings)[k]
      ensures FeaturesApplied(old(page.rootClasses), old(page.rootVars), old(page.styleIds))
      ensures focusable == old(focusable) && currentFocusIndex == old(currentFocusIndex)
      ensures focused == old(focused) && page == old(page)
    {
      settings := Spread(JObj(settings), newSettings).fields;
      ApplyAccessibilityFeatures();
    }

    /** The page after `applyAccessibilityFeatures` on the given page. */
    predicate FeaturesApplied(classes: set<string>, vars: map<string, string>, styles: seq<string>)
      reads this, page
    {
      var hc := Truthy(Member(JObj(settings), "highContrast"));
      var rm := Truthy(Member(JObj(settings), "reducedMotion"));
      && page.rootClasses == Toggled(Toggled(classes, HighContrastClass, hc), ReducedMotionClass, rm)
      && page.rootVars == vars[FontSizeVar := FontSizeFor(Member(JObj(settings), "fontSize"))]
      && page.styleIds == ApplyStyles(styles, hc, rm)
    }

    /** `applyAccessibilityFeatures`: high contrast, reduced motion, then
        the base font size. */
    method ApplyAccessibilityFeatures()
      modifies page
      ensures FeaturesApplied(old(page.rootClasses), old(page.rootVars), old(page.styleIds))
    {
      var hc := Truthy(Member(JObj(settings), "highContrast"));
      page.ToggleRootClass(HighContrastClass, hc);
      if hc {
        page.InjectStyleOnce(HighContrastStyles);
      }
      var rm := Truthy(Member(JObj(settings), "reducedMotion"));
      page.ToggleRootClass(ReducedMotionClass, rm);
      if rm {
        page.InjectStyleOnce(ReducedMotionStyles);
      }
      page.SetRootVar(FontSizeVar, FontSizeFor(Member(JObj(settings), "fontSize")));
    }
  }

  const DefaultSettings: map<string, Json> := map[
    "highContrast" := JBool(false), "reducedMotion" := JBool(false),
    "fontSize" := JStr("normal"), "screenReader" := JBool(false),
    "keyboardNavigation" := JBool(true), "focusIndicators" := JBool(true)]

  const HighContrastClass := "horizon-high-contrast"
  const ReducedMotionClass := "horizon-reduced-motion"
  const HighContrastStyles := "horizon-high-contrast-styles"
  const ReducedMotionStyles := "horizon-reduced-motion-styles"
  const FontSizeVar := "--horizon-base-font-size"

  function Toggled(classes: set<string>, c: string, on: bool): set<string> {
    if on then classes + {c} else classes - {c}
  }

  /** The style blocks after the two guarded injections. */
  function ApplyStyles(styles: seq<string>, hc: bool, rm: bool): seq<string> {
    var s := if hc then InjectOnce(styles, HighContrastStyles) else styles;
    if rm then InjectOnce(s, ReducedMotionStyles) else s
  }

  /** Applying the features again adds no second copy of either style. */
  lemma ApplyStylesIdempotent(styles: seq<string>, hc: bool, rm: bool)
    ensures ApplyStyles(ApplyStyles(styles, hc, rm), hc, rm) == ApplyStyles(styles, hc, rm)
  {
    var s := if hc then InjectOnce(styles, HighContrastStyles) else styles;
    if hc {
      InjectOnceIdempotent(styles, HighContrastStyles);
    }
    if rm {
      InjectOnceIdempotent(s, ReducedMotionStyles);
      assert HighContrastStyles in ApplyStyles(styles, hc, rm) || !hc;
    }
  }

  /** The `fontSizeMap` of `applyFontSize`. */
  const FontSizes: map<string, string> :=
    map["small" := "0.875rem", "normal" := "1rem", "large" := "1.125rem", "extra-large" := "1.25rem"]

  /** `fontSizeMap[size] || fontSizeMap.normal`: the rem value of the size
      the setting names (a string, or anything whose property name is that
      string, such as `["large"]`), `1rem` for any other value. */
  function FontSizeFor(size: Json): (r: string)
    ensures r in FontSizes.Values
    ensures KeyText(size).Some? && KeyText(size).value in FontSizes ==> r == FontSizes[KeyText(size).value]
    ensures KeyText(size).None? || KeyText(size).value !in FontSizes ==> r == "1rem"
  {
    LookupOr(FontSizes, size, "normal")
  }

  /** Larger size names give strictly larger sizes. */
  lemma FontSizesOrdered()
    ensures FontSizeFor(JStr("small")) == "0.875rem" && FontSizeFor(JStr("normal")) == "1rem"
    ensures FontSizeFor(JStr("large")) == "1.125rem" && FontSizeFor(JStr("extra-large")) == "1.25rem"
  {
  }

  /** The map lookup names its key, so a size inside a one-element array
      finds the same entry as the size itself. */
  lemma WrappedSizeFound(w: string)
    ensures FontSizeFor(JArr([JStr(w)])) == FontSizeFor(JStr(w))
  {
  }

  // ------------------------------------------------ menu navigation

  /** The index `handleMenuNavigation` moves to from item `current` of `n`
      menu items, or `None` when it focuses nothing (another key, or a
      single item). */
  function MenuTarget(current: nat, n: nat, key: string): (r: Option<nat>)
    requires current < n
    ensures r.Some? ==> r.value < n && r.value != current
    ensures key != "ArrowUp" && key != "ArrowDown" ==> r == None
    ensures n == 1 ==> r == None
  {
    var target :=
      if key == "ArrowUp" then (if current > 0 then current - 1 else n - 1)
      else if key == "ArrowDown" then (if current < n - 1 then current + 1 else 0)
      else current;
    if target != current then Some(target) else None
  }

  /** The arrows wrap around, and each undoes the other. */
  lemma MenuWraps(current: nat, n: nat)
    requires current < n && n >= 2
    ensures current == 0 ==> MenuTarget(current, n, "ArrowUp") == Some(n - 1)
    ensures current == n - 1 ==> MenuTarget(current, n, "ArrowDown") == Some(0)
    ensures MenuTarget(MenuTarget(current, n, "ArrowUp").value, n, "ArrowDown") == Some(current)
    ensures MenuTarget(MenuTarget(current, n, "ArrowDown").value, n, "ArrowUp") == Some(current)
  {
  }

  // ------------------------------------------------ descriptions

  const IconTable: seq<(string, string)> := [
    ("home", "Главная"), ("settings", "Настройки"), ("user", "Пользователь"),
    ("search", "Поиск"), ("menu", "Меню"), ("close", "Закрыть"),
    ("edit", "Редактировать"), ("delete", "Удалить"), ("save", "Сохранить"),
    ("cancel", "Отмена")]

  /** `getIconDescription`: the description of the first key the
      lower-cased class name contains, else 'Кнопка'. */
  function IconDescription(className: string): (r: string)
    ensures var lower := ToLower(className);
      && (r == "Кнопка" <==> forall i :: 0 <= i < |IconTable| ==> !Contains(lower, IconTable[i].0))
      && (r != "Кнопка" ==> exists i :: FirstContainedAt(IconTable, lower, i) && IconTable[i].1 == r)
  {
    var d := FirstContained(IconTable, ToLower(className));
    if d.Some? then d.value else "Кнопка"
  }

  /** The parts of an element `getElementDescription` looks at. */
  datatype Described = Described(
    tag: string, inputType: string, checked: bool,
    labels: seq<string>,
    ariaLabel: Option<string>,
    /** `aria-labelledby`, and the text of the element it names if found. */
    labelledBy: Option<Option<string>>,
    placeholder: Option<string>,
    name: string,
    required: bool, disabled: bool)

  /** `getElementLabel`: the first label, the `aria-label`, the text of the
      `aria-labelledby` element, a non-empty placeholder, the name, and
      finally 'Поле ввода'. */
  function ElementLabel(e: Described): (r: string)
    ensures |e.labels| > 0 ==> r == Trim(e.labels[0])
    ensures |e.labels| == 0 && e.ariaLabel.Some? ==> r == e.ariaLabel.value
    ensures (|e.labels| == 0 && e.ariaLabel.None? && e.labelledBy.Some? && e.labelledBy.value.Some?) ==>
            r == Trim(e.labelledBy.value.value)
    ensures (|e.labels| == 0 && e.ariaLabel.None? && (e.labelledBy.None? || e.labelledBy.value.None?)
             && e.placeholder.Some? && e.placeholder.value != "") ==>
            r == e.placeholder.value
    ensures (|e.labels| == 0 && e.ariaLabel.None? && (e.labelledBy.None? || e.labelledBy.value.None?)
             && (e.placeholder.None? || e.placeholder.value == "")) ==>
            r == (if e.name != "" then e.name else "Поле ввода")
  {
    if |e.labels| > 0 then Trim(e.labels[0])
    else if e.ariaLabel.Some? then e.ariaLabel.value
    else if e.labelledBy.Some? && e.labelledBy.value.Some? then Trim(e.labelledBy.value.value)
    else if e.placeholder.Some? && e.placeholder.value != "" then e.placeholder.value
    else if e.name != "" then e.name
    else "Поле ввода"
  }

  /** The part a tag (and an input's type) adds to the description. */
  function TagSuffix(e: Described): string {
    match e.tag
    case "button" => ", кнопка"
    case "input" =>
      (match e.inputType
       case "text" => ", поле ввода текста"
       case "email" => ", поле ввода email"
       case "password" => ", поле ввода пароля"
       case "checkbox" => ", флажок, " + (if e.checked then "отмечен" else "не отмечен")
       case "radio" => ", переключатель, " + (if e.checked then "выбран" else "не выбран")
       case _ => "")
    case "select" => ", выпадающий список"
    case "textarea" => ", многострочное поле ввода"
    case "a" => ", ссылка"
    case _ => ""
  }

  const RequiredSuffix := ", обязательное"
  const DisabledSuffix := ", недоступно"

  /** `getElementDescription`: the label, the tag part, then the required
      and disabled marks, in this order. */
  method ElementDescription(e: Described) returns (description: string)
    ensures description == ElementLabel(e) + TagSuffix(e)
      + (if e.required then RequiredSuffix else "") + (if e.disabled then DisabledSuffix else "")
  {
    description := ElementLabel(e);
    description := description + TagSuffix(e);
    if e.required {
      description := description + RequiredSuffix;
    }
    if e.disabled {
      description := description + DisabledSuffix;
    }
  }

  /** Four parts put together start with the first and end with the last,
      or with the third when the last is empty. */
  lemma PartsShape(a: string, b: string, c: string, d: string)
    ensures StartsWith(a + b + c + d, a) && EndsWith(a + b + c + d, d)
    ensures d == "" ==> EndsWith(a + b + c + d, c)
  {
    assert (a + b + c + d)[..|a|] == a;
    assert (a + b + c + d)[|a + b + c|..] == d;
    if d == "" {
      assert a + b + c + d == a + b + c;
      assert (a + b + c)[|a + b|..] == c;
    }
  }

  /** The description starts with the label, and ends with the disabled mark
      exactly when the element is disabled. */
  lemma DescriptionShape(e: Described)
    ensures var d := ElementLabel(e) + TagSuffix(e)
        + (if e.required then RequiredSuffix else "") + (if e.disabled then DisabledSuffix else "");
      && StartsWith(d, ElementLabel(e))
      && (e.disabled ==> EndsWith(d, DisabledSuffix))
      && (!e.disabled && e.required ==> EndsWith(d, RequiredSuffix))
  {
    PartsShape(ElementLabel(e), TagSuffix(e), if e.required then RequiredSuffix else "",
      if e.disabled then DisabledSuffix else "");
  }
}
