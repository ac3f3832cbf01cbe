/** The navigation menu built by the content script of content/content.js:
    the items read from the page with their icons and badges, the grouping
    of items into categories by keyword, and the search filter. */
module ContentMenu {
  import opened JsText
  import opened Json

  /** A badge or counter shown next to a menu item. */
  datatype Badge = Badge(text: Option<string>, count: Option<int>)

  /** A menu item `{text, href, icon, badge}`; its `onclick` is not kept. */
  datatype MenuItem = MenuItem(text: string, href: string, icon: string, badge: Option<Badge>)

  /** A link the menu query finds on the page: its `textContent`, its
      `href` property ("" when it has none) and the text of a `.badge`,
      `.counter` or `.notification` inside it, if there is one. */
  datatype Link = Link(textContent: string, href: string, badgeText: Option<string>)

  // ---- icons

  /** The keyword table of `mapIconToHorizon`, in insertion order. */
  const IconMap: seq<(string, string)> := [
    ("главная", "🏠"), ("рабочий стол", "🏠"), ("справочники", "📋"), ("справочник", "📋"),
    ("документы", "📄"), ("документ", "📄"), ("журналы", "📚"), ("журнал", "📚"),
    ("отчеты", "📊"), ("отчет", "📊"), ("анализ", "📊"), ("обработки", "⚙️"),
    ("обработка", "⚙️"), ("настройки", "⚙️"), ("настройка", "⚙️"),
    ("администрирование", "👑"), ("администратор", "👑"), ("сервис", "🔧"), ("помощь", "❓"),
    ("пользователи", "👥"), ("пользователь", "👤"), ("роли", "🎭"), ("права", "🔐"),
    ("безопасность", "🛡️"), ("резервное копирование", "💾"), ("обновление", "🔄"),
    ("лицензии", "📜"), ("подключения", "🔌")]

  const DefaultIcon := "📌"

  /** `mapIconToHorizon`. */
  function MapIconToHorizon(text: string): (r: string)
    ensures r == DefaultIcon || exists i :: 0 <= i < |IconMap| && IconMap[i].1 == r
  {
    var key := ToLower(text);
    match ExactLookup(IconMap, key)
    case Some(icon) => icon
    case None =>
      match FirstContained(IconMap, key)
      case Some(icon) => icon
      case None => DefaultIcon
  }

  /** The icon of the lower-cased text itself when it is a key; otherwise
      that of the first key, in table order, that the text contains;
      otherwise the pin. */
  lemma MapIconRule(text: string)
    ensures var r := MapIconToHorizon(text);
      && (r == DefaultIcon || exists i :: 0 <= i < |IconMap| && IconMap[i].1 == r)
      && var key := ToLower(text);
      && ((exists i :: 0 <= i < |IconMap| && IconMap[i].0 == key) ==>
            exists i :: 0 <= i < |IconMap| && IconMap[i] == (key, r))
      && ((forall i :: 0 <= i < |IconMap| ==> IconMap[i].0 != key) ==>
            forall j :: FirstContainedAt(IconMap, key, j) ==> r == IconMap[j].1)
      && ((forall i :: 0 <= i < |IconMap| ==> !Contains(key, IconMap[i].0)) ==> r == DefaultIcon)
  {
    var key := ToLower(text);
    if ExactLookup(IconMap, key).Some? {
      ContainsItself(key);
    } else {
      forall j | FirstContainedAt(IconMap, key, j) ensures MapIconToHorizon(text) == IconMap[j].1 {
        FirstContainedIs(IconMap, key, j);
      }
    }
  }

  /** The lookup ignores letter case. */
  lemma MapIconIgnoresCase(text: string)
    ensures MapIconToHorizon(ToLower(text)) == MapIconToHorizon(text)
  {
    LowerOfLower(text);
  }

  // ---- badges

  /** `parseInt(s)` without a radix: base 16 when the digits, after white
      space and a sign, start with `0x` or `0X`, base 10 otherwise. */
  function ParseIntAuto(s: string): (r: Option<int>)
  {
    var (u, _) := Unsigned(TrimStart(s));
    if |u| >= 2 && u[0] == '0' && (u[1] == 'x' || u[1] == 'X') then ParseInt(s, 16) else ParseInt(s, 10)
  }

  /** `extractBadgeInfo`: no badge element gives `null`; otherwise the
      trimmed badge text is kept as text when it does not parse as an
      integer, and as a count when it does, never both. */
  function ExtractBadgeInfo(badgeText: Option<string>): (r: Option<Badge>)
    ensures r.None? <==> badgeText.None?
    ensures r.Some? ==> (r.value.text.Some? <==> r.value.count.None?)
    ensures r.Some? && r.value.text.Some? ==> r.value.text.value == Trim(badgeText.value)
  {
    match badgeText
    case None => None
    case Some(t) =>
      var text := Trim(t);
      var count := ParseIntAuto(text);
      Some(Badge(if count.None? then Some(text) else None, count))
  }

  /** A badge reading a number is a count of that number. */
  lemma BadgeOfNumeral(n: nat)
    ensures ExtractBadgeInfo(Some(NatToString(n))) == Some(Badge(None, Some(n)))
  {
    NumeralTrimmed(n);
    ParseIntAutoOfNumeral(n);
  }

  lemma ParseIntAutoOfNumeral(n: nat)
    ensures ParseIntAuto(NatToString(n)) == Some(n)
  {
    var s := NatToString(n);
    UnsignedNumeral(n, []);
    assert s + [] == s;
    NatToStringCanonical(n);
    ParseIntOfNumeral(n);
  }

  lemma ParseIntOfNumeral(n: nat)
    ensures ParseInt(NatToString(n), 10) == Some(n)
  {
    var s := NatToString(n);
    UnsignedNumeral(n, []);
    assert s + [] == s;
    DigitRunOfNumeral(s);
    DigitsValueOfNatToString(n);
    assert s[..|s|] == s;
  }

  /** A badge reading a word (its first character neither a digit nor a
      sign) is kept as text. */
  lemma BadgeOfWord(t: string)
    requires var w := Trim(t); |w| > 0 && !('0' <= w[0] <= '9') && w[0] != '-' && w[0] != '+'
    ensures ExtractBadgeInfo(Some(t)) == Some(Badge(Some(Trim(t)), None))
  {
    ParseIntAutoOfWord(Trim(t));
  }

  lemma ParseIntAutoOfWord(w: string)
    requires |w| > 0 && !IsSpace(w[0]) && !('0' <= w[0] <= '9') && w[0] != '-' && w[0] != '+'
    ensures ParseIntAuto(w) == None
  {
    assert TrimStart(w) == w;
    assert Unsigned(w) == (w, false);
    assert DigitValue(w[0], 10).None?;
    assert DigitRun(w, 10) == 0;
  }

  // ---- items

  /** The item pushed for link `l`, when its trimmed text is not empty. */
  function ItemOf(l: Link): MenuItem {
    MenuItem(Trim(l.textContent), if l.href == "" then "#" else l.href,
             MapIconToHorizon(l.textContent), ExtractBadgeInfo(l.badgeText))
  }

  /** The items the page's links give, in document order. */
  function FoundItems(links: seq<Link>): (r: seq<MenuItem>)
    ensures |r| <= |links|
    ensures forall k :: 0 <= k < |r| ==> r[k].text != "" && IsTrimmed(r[k].text)
  {
    if links == [] then []
    else
      var init := FoundItems(links[..|links| - 1]);
      var l := links[|links| - 1];
      if Trim(l.textContent) != "" then
        var item := ItemOf(l);
        assert item.text == Trim(l.textContent);
        var r := init + [item];
        assert forall k :: 0 <= k < |r| ==> r[k].text != "" && IsTrimmed(r[k].text) by {
          forall k | 0 <= k < |r| ensures r[k].text != "" && IsTrimmed(r[k].text) {
            if k < |init| { assert r[k] == init[k]; } else { assert r[k] == item; }
          }
        }
        r
      else init
  }

  /** The eight items shown when the page has no recognisable menu. */
  const DefaultMenu: seq<MenuItem> := [
    MenuItem("Рабочий стол", "#", "🏠", None),
    MenuItem("Справочники", "#", "📋", None),
    MenuItem("Документы", "#", "📄", Some(Badge(Some("Новые"), Some(3)))),
    MenuItem("Журналы документов", "#", "📚", None),
    MenuItem("Отчеты", "#", "📊", None),
    MenuItem("Обработки", "#", "⚙️", None),
    MenuItem("Администрирование", "#", "👑", None),
    MenuItem("Сервис", "#", "🔧", None)]

  /** `extract1CMenu`: one item per link whose text is not blank, in
      order; the defaults when there is none. */
  method Extract1CMenu(links: seq<Link>) returns (items: seq<MenuItem>)
    ensures items == if FoundItems(links) == [] then DefaultMenu else FoundItems(links)
    ensures items != []
  {
    items := [];
    for i := 0 to |links|
      invariant items == FoundItems(links[..i])
    {
      assert links[..i + 1][..i] == links[..i];
      if Trim(links[i].textContent) != "" {
        items := items + [ItemOf(links[i])];
      }
    }
    assert links[..|links|] == links;
    if |items| == 0 {
      items := DefaultMenu;
    }
  }

  // ---- grouping

  /** The categories of `groupMenuItems`, in the order of the object
      literal (and so of `Object.entries`). */
  const Groups: seq<string> := ["Основное", "Справочники", "Документы", "Отчеты", "Настройки", "default"]

  /** The category whose rule first matches a lower-cased text. */
  function GroupOfText(text: string): (g: string)
    ensures g in Groups
  {
    if Contains(text, "справочник") then "Справочники"
    else if Contains(text, "документ") || Contains(text, "журнал") then "Документы"
    else if Contains(text, "отчет") || Contains(text, "анализ") then "Отчеты"
    else if Contains(text, "настройк") || Contains(text, "администр") then "Настройки"
    else if Contains(text, "главн") || Contains(text, "рабоч") then "Основное"
    else "default"
  }

  /** The category of an item: the rules look at its lower-cased text. */
  function MenuGroup(item: MenuItem): (g: string)
    ensures g in Groups
  {
    GroupOfText(ToLower(item.text))
  }

  /** The keyword rules as one table, in the order they are tried. */
  const GroupRules: seq<(string, string)> := [
    ("справочник", "Справочники"), ("документ", "Документы"), ("журнал", "Документы"),
    ("отчет", "Отчеты"), ("анализ", "Отчеты"), ("настройк", "Настройки"),
    ("администр", "Настройки"), ("главн", "Основное"), ("рабоч", "Основное")]

  /** The category the table gives a text. */
  function RuleGroup(t: string): string {
    match FirstContained(GroupRules, t)
    case Some(g) => g
    case None => "default"
  }

  /** The category is that of the first keyword of the table the text
      contains, and `default` when it contains none. */
  lemma GroupIsFirstRule(t: string)
    ensures GroupOfText(t) == RuleGroup(t)
  {
    if Contains(t, "справочник") { FirstContainedIs(GroupRules, t, 0); }
    else if Contains(t, "документ") { FirstContainedIs(GroupRules, t, 1); }
    else if Contains(t, "журнал") { FirstContainedIs(GroupRules, t, 2); }
    else if Contains(t, "отчет") { FirstContainedIs(GroupRules, t, 3); }
    else if Contains(t, "анализ") { FirstContainedIs(GroupRules, t, 4); }
    else { LaterRules(t); }
  }

  lemma LaterRules(t: string)
    requires !Contains(t, "справочник") && !Contains(t, "документ") && !Contains(t, "журнал")
    requires !Contains(t, "отчет") && !Contains(t, "анализ")
    ensures GroupOfText(t) == RuleGroup(t)
  {
    if Contains(t, "настройк") { FirstContainedIs(GroupRules, t, 5); }
    else if Contains(t, "администр") { FirstContainedIs(GroupRules, t, 6); }
    else if Contains(t, "главн") { FirstContainedIs(GroupRules, t, 7); }
    else if Contains(t, "рабоч") { FirstContainedIs(GroupRules, t, 8); }
  }

  /** The items of category `g`, in input order. */
  function ItemsIn(items: seq<MenuItem>, g: string): (r: seq<MenuItem>)
    ensures |r| <= |items|
    ensures forall x :: x in r <==> x in items && MenuGroup(x) == g
  {
    if items == [] then []
    else
      var init := ItemsIn(items[..|items| - 1], g);
      var x := items[|items| - 1];
      assert items == items[..|items| - 1] + [x];
      if MenuGroup(x) == g then init + [x] else init
  }

  /** The entries `(category, items)` of the grouping object, in key order,
      after the empty categories are deleted. */
  function KeepNonEmpty<T>(entries: seq<(string, seq<T>)>): (r: seq<(string, seq<T>)>)
    ensures forall i :: 0 <= i < |r| ==> r[i] in entries && r[i].1 != []
    ensures forall i :: 0 <= i < |entries| && entries[i].1 != [] ==> entries[i] in r
  {
    if entries == [] then []
    else if entries[0].1 == [] then KeepNonEmpty(entries[1..])
    else [entries[0]] + KeepNonEmpty(entries[1..])
  }

  /** The grouping object before deletion: every category with its items. */
  function Table(items: seq<MenuItem>, keys: seq<string>): (r: seq<(string, seq<MenuItem>)>)
    ensures |r| == |keys|
    ensures forall k :: 0 <= k < |keys| ==> r[k] == (keys[k], ItemsIn(items, keys[k]))
  {
    if keys == [] then [] else [(keys[0], ItemsIn(items, keys[0]))] + Table(items, keys[1..])
  }

  /** What `groupMenuItems(items)` evidently means to return. */
  function Grouped(items: seq<MenuItem>): seq<(string, seq<MenuItem>)> {
    KeepNonEmpty(Table(items, Groups))
  }

  /** The outcome of a call: the grouping, or the error it throws. */
  datatype Outcome = Returned(entries: seq<(string, seq<MenuItem>)>) | Threw(error: string)

  /** `groupMenuItems` as written: its loop reads `originalMenu`, a local
      of the caller that is not in scope, so every call throws a
      `ReferenceError` before any item is looked at. */
  function GroupMenuItemsAsWritten(items: seq<MenuItem>): (r: Outcome)
    ensures r.Threw?
  {
    Threw("ReferenceError")
  }

  /** As written, no call returns the grouping of its items. */
  lemma AsWrittenNeverGroups(items: seq<MenuItem>)
    ensures GroupMenuItemsAsWritten(items) != Returned(Grouped(items))
  {
  }

  /** `groupMenuItems` iterating over its parameter: every item is pushed
      onto the list of its category, then the empty categories are
      deleted. */
  method GroupMenuItems(items: seq<MenuItem>) returns (r: Outcome)
    ensures r == Returned(Grouped(items))
  {
    var groups: map<string, seq<MenuItem>> := map g | g in Groups :: [];
    for i := 0 to |items|
      invariant forall g :: g in Groups ==> g in groups && groups[g] == ItemsIn(items[..i], g)
    {
      var g := MenuGroup(items[i]);
      forall h | h in Groups
        ensures ItemsIn(items[..i + 1], h) == ItemsIn(items[..i], h) + (if g == h then [items[i]] else [])
      {
        ItemsInSnoc(items, i, h);
      }
      groups := groups[g := groups[g] + [items[i]]];
    }
    assert items[..|items|] == items;
    var entries: seq<(string, seq<MenuItem>)> := [];
    for j := 0 to |Groups|
      invariant entries == KeepNonEmpty(Table(items, Groups[..j]))
    {
      var g := Groups[j];
      assert groups[g] == ItemsIn(items, g);
      KeepNonEmptyAppend(Table(items, Groups[..j]), (g, groups[g]));
      TableAppend(items, Groups[..j], g);
      TakeSnoc(Groups, j);
      if groups[g] != [] {
        entries := entries + [(g, groups[g])];
      }
    }
    assert Groups[..|Groups|] == Groups;
    r := Returned(entries);
  }

  lemma ItemsInSnoc(items: seq<MenuItem>, i: int, g: string)
    requires 0 <= i < |items|
    ensures ItemsIn(items[..i + 1], g) == ItemsIn(items[..i], g) + (if MenuGroup(items[i]) == g then [items[i]] else [])
  {
    assert items[..i + 1][..i] == items[..i];
  }

  lemma {:induction false} KeepNonEmptyAppend<T>(es: seq<(string, seq<T>)>, e: (string, seq<T>))
    ensures KeepNonEmpty(es + [e]) == KeepNonEmpty(es) + (if e.1 == [] then [] else [e])
  {
    if es == [] {
      assert es + [e] == [e];
    } else {
      assert (es + [e])[0] == es[0];
      assert (es + [e])[1..] == es[1..] + [e];
      KeepNonEmptyAppend(es[1..], e);
    }
  }

  lemma {:induction false} TableAppend(items: seq<MenuItem>, keys: seq<string>, g: string)
    ensures Table(items, keys + [g]) == Table(items, keys) + [(g, ItemsIn(items, g))]
  {
  }

  /** Every category left holds items, and exactly the items its rule
      chooses, in input order; every item is in the category of its rule
      and in no other; the categories keep their declared order. */
  lemma GroupedPartition(items: seq<MenuItem>)
    ensures var r := Grouped(items);
      && (forall k :: 0 <= k < |r| ==> r[k].1 != [] && r[k].1 == ItemsIn(items, r[k].0) && r[k].0 in Groups)
      && (forall x, k :: x in items && 0 <= k < |r| ==> (x in r[k].1 <==> r[k].0 == MenuGroup(x)))
      && (forall x :: x in items ==> exists k :: 0 <= k < |r| && r[k].0 == MenuGroup(x))
  {
    var t := Table(items, Groups);
    var r := Grouped(items);
    forall k | 0 <= k < |r| ensures r[k].1 != [] && r[k].1 == ItemsIn(items, r[k].0) && r[k].0 in Groups {
      assert r[k] in t;
    }
    forall x | x in items ensures exists k :: 0 <= k < |r| && r[k].0 == MenuGroup(x) {
      var g := MenuGroup(x);
      var i :| 0 <= i < |Groups| && Groups[i] == g;
      assert x in ItemsIn(items, g);
      assert t[i] in r;
    }
  }

  /** Keys that differ pairwise. */
  predicate DistinctKeys<T>(es: seq<(string, seq<T>)>) {
    forall a, b :: 0 <= a < b < |es| ==> es[a].0 != es[b].0
  }

  lemma {:induction false} KeepNonEmptyKeysDistinct<T>(es: seq<(string, seq<T>)>)
    requires DistinctKeys(es)
    ensures DistinctKeys(KeepNonEmpty(es))
  {
    if es != [] {
      var tail := es[1..];
      assert DistinctKeys(tail) by {
        forall a, b | 0 <= a < b < |tail| ensures tail[a].0 != tail[b].0 {
          assert tail[a] == es[a + 1] && tail[b] == es[b + 1];
        }
      }
      KeepNonEmptyKeysDistinct(tail);
      var rest := KeepNonEmpty(tail);
      forall e | e in rest ensures e.0 != es[0].0 {
        var b :| 0 <= b < |tail| && tail[b] == e;
        assert es[b + 1] == e;
      }
      if es[0].1 != [] {
        var r := KeepNonEmpty(es);
        assert r == [es[0]] + rest;
        forall a, b | 0 <= a < b < |r| ensures r[a].0 != r[b].0 {
          assert r[b] == rest[b - 1];
          if a == 0 {
            assert r[b] in rest;
          } else {
            assert r[a] == rest[a - 1];
          }
        }
      } else {
        assert KeepNonEmpty(es) == rest;
      }
    }
  }

  lemma GroupedOverKeysDistinct(items: seq<MenuItem>, keys: seq<string>)
    requires forall a, b :: 0 <= a < b < |keys| ==> keys[a] != keys[b]
    ensures DistinctKeys(KeepNonEmpty(Table(items, keys)))
  {
    var t := Table(items, keys);
    assert DistinctKeys(t) by {
      forall a, b | 0 <= a < b < |t| ensures t[a].0 != t[b].0 {
        assert t[a].0 == keys[a] && t[b].0 == keys[b];
      }
    }
    KeepNonEmptyKeysDistinct(t);
  }

  /** No category appears twice, so every item is in exactly one. */
  lemma GroupedKeysDistinct(items: seq<MenuItem>)
    ensures DistinctKeys(Grouped(items))
  {
    GroupedOverKeysDistinct(items, Groups);
  }

  // ---- search

  /** The `background` and `borderLeft` styles of a menu link. */
  datatype LinkStyle = LinkStyle(background: string, borderLeft: string)

  /** A `.horizon-menu-item`: its text, its `display` style and the style
      of the link inside it, if it has one. */
  datatype MenuEntry = MenuEntry(text: string, display: string, link: Option<LinkStyle>)

  const Highlighted := LinkStyle("var(--horizon-brand-50)", "3px solid var(--horizon-brand-500)")
  const Unhighlighted := LinkStyle("transparent", "none")

  /** The first pass of `filterMenu` on one item: show it when its text
      contains the query (highlighting its link when the query is not
      empty), hide it otherwise. */
  function ShowOrHide(e: MenuEntry, query: string): MenuEntry {
    var lowerQuery := ToLower(query);
    if Contains(ToLower(e.text), lowerQuery) then
      e.(display := "block",
         link := if query != "" && lowerQuery != "" && e.link.Some? then Some(Highlighted) else e.link)
    else e.(display := if query != "" then "none" else "block")
  }

  /** The second pass, taken for an empty query only: every link loses its
      highlight. */
  function ResetHighlight(e: MenuEntry): MenuEntry {
    if e.link.Some? then e.(link := Some(Unhighlighted)) else e
  }

  /** An item after `filterMenu(query)`. */
  function Filtered(e: MenuEntry, query: string): MenuEntry {
    var shown := ShowOrHide(e, query);
    if query == "" then ResetHighlight(shown) else shown
  }

  /** An item is shown exactly when the query is empty or its lower-cased
      text contains the lower-cased query; a shown item's link is
      highlighted for a non-empty query and plain for the empty one; a
      hidden item's link keeps its style. */
  lemma FilterRule(e: MenuEntry, query: string)
    ensures var r := Filtered(e, query);
      && r.text == e.text
      && (r.display == "block" <==> (query == "" || Contains(ToLower(e.text), ToLower(query))))
      && (r.display != "block" ==> r.display == "none")
      && (r.link.Some? <==> e.link.Some?)
      && (query == "" && e.link.Some? ==> r.link == Some(Unhighlighted))
      && (query != "" && r.display == "block" && e.link.Some? ==> r.link == Some(Highlighted))
      && (r.display == "none" ==> r.link == e.link)
  {
    ContainsItself(ToLower(e.text));
  }

  /** Filtering twice by the same query changes nothing more. */
  lemma FilterIdempotent(e: MenuEntry, query: string)
    ensures Filtered(Filtered(e, query), query) == Filtered(e, query)
  {
    ContainsItself(ToLower(e.text));
  }

  /** The items of the navigation and the search that filters them. */
  class MenuPanel {
    var entries: seq<MenuEntry>

    constructor(entries: seq<MenuEntry>)
      ensures this.entries == entries
    {
      this.entries := entries;
    }

    /** `filterMenu(query)`: the show/hide pass over all items, then, for an
        empty query, the pass that resets every link. */
    method FilterMenu(query: string)
      modifies this
      ensures |entries| == |old(entries)|
      ensures forall i :: 0 <= i < |entries| ==> entries[i] == Filtered(old(entries)[i], query)
    {
      var n := |entries|;
      for i := 0 to n
        invariant |entries| == n
        invariant forall k :: 0 <= k < i ==> entries[k] == ShowOrHide(old(entries)[k], query)
        invariant forall k :: i <= k < n ==> entries[k] == old(entries)[k]
      {
        entries := entries[i := ShowOrHide(entries[i], query)];
      }
      if query == "" {
        for i := 0 to n
          invariant |entries| == n
          invariant forall k :: 0 <= k < i ==> entries[k] == Filtered(old(entries)[k], query)
          invariant forall k :: i <= k < n ==> entries[k] == ShowOrHide(old(entries)[k], query)
        {
          entries := entries[i := ResetHighlight(entries[i])];
        }
      }
    }
  }
}
