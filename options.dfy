/** The options page's settings utilities and settings state
    (horizon-1c-extension/options/options.js). */
module Options {
  import opened JsText
  import opened Json

  // ---------------------------------------------------------------- mergeDeep

  /** `mergeDeep(target, source)`: a fresh copy of `target` in which every
      key of `source` is overwritten by the source value, except that a
      source object is merged recursively into a target value that exists
      under the same key.  When either argument is not an object the result
      is only the copy of `target`. */
  function MergeDeep(t: Json, s: Json): (r: Json)
    ensures r.JObj?
    decreases s
  {
    if IsObject(t) && IsObject(s) then
      JObj(map k | k in t.fields.Keys + s.fields.Keys ::
        if k !in s.fields then t.fields[k]
        else if IsObject(s.fields[k]) && k in t.fields then MergeDeep(t.fields[k], s.fields[k])
        else s.fields[k])
    else JObj(OwnProperties(t))
  }

  /** Key coverage: the result has the keys of both trees; keys the source
      lacks keep the target value; non-object source values overwrite. */
  lemma MergeDeepCoverage(t: Json, s: Json)
    requires t.JObj? && s.JObj?
    ensures var r := MergeDeep(t, s).fields;
      && r.Keys == t.fields.Keys + s.fields.Keys
      && (forall k :: k in t.fields && k !in s.fields ==> r[k] == t.fields[k])
      && (forall k :: k in s.fields && !IsObject(s.fields[k]) ==> r[k] == s.fields[k])
  {
  }

  /** A source object under key k is taken as it is when the target lacks k,
      and merged otherwise; merged into a non-object target value it gives
      that value's own properties only, `{}` for anything but a string or an
      array. */
  lemma MergeDeepObjectValue(t: Json, s: Json, k: string)
    requires t.JObj? && s.JObj? && k in s.fields && IsObject(s.fields[k])
    ensures var r := MergeDeep(t, s).fields;
      && (k !in t.fields ==> r[k] == s.fields[k])
      && (k in t.fields ==> r[k] == MergeDeep(t.fields[k], s.fields[k]))
      && (k in t.fields && !IsObject(t.fields[k]) ==> r[k] == JObj(OwnProperties(t.fields[k])))
      && (k in t.fields && !t.fields[k].JObj? && !t.fields[k].JStr? && !t.fields[k].JArr? ==> r[k] == Empty)
  {
    if k in t.fields {
      IsObjectIsPlainObject(t.fields[k]);
    }
  }

  /** When either side is not an object the result is the target's copy. */
  lemma MergeDeepNonObject(t: Json, s: Json)
    requires !t.JObj? || !s.JObj?
    ensures MergeDeep(t, s) == JObj(OwnProperties(t))
  {
    IsObjectIsPlainObject(t);
    IsObjectIsPlainObject(s);
  }

  /** Merging `{}` into an object copies it; merging an object into `{}`
      gives the object. */
  lemma MergeDeepEmpty(t: Json)
    requires t.JObj?
    ensures MergeDeep(t, Empty) == t
    ensures MergeDeep(Empty, t) == t
  {
  }

  /** Merging a tree into itself gives it back. */
  lemma {:induction false} MergeDeepSelf(t: Json)
    requires t.JObj?
    ensures MergeDeep(t, t) == t
    decreases t
  {
    forall k | k in t.fields && IsObject(t.fields[k])
      ensures MergeDeep(t.fields[k], t.fields[k]) == t.fields[k]
    {
      IsObjectIsPlainObject(t.fields[k]);
      MergeDeepSelf(t.fields[k]);
    }
    assert MergeDeep(t, t).fields == t.fields;
  }

  /** Both trees are objects, and every source object lies over an object
      or over nothing in the target, all the way down. */
  predicate ShapeCompatible(t: Json, s: Json)
    decreases s
  {
    t.JObj? && s.JObj? &&
    forall k :: k in s.fields && k in t.fields && s.fields[k].JObj? ==>
      ShapeCompatible(t.fields[k], s.fields[k])
  }

  /** Merging the same stored tree a second time changes nothing, as long as
      the shapes agree. */
  lemma {:induction false} MergeDeepIdempotent(t: Json, s: Json)
    requires ShapeCompatible(t, s)
    ensures MergeDeep(MergeDeep(t, s), s) == MergeDeep(t, s)
    decreases s
  {
    var r := MergeDeep(t, s);
    forall k | k in s.fields && IsObject(s.fields[k])
      ensures MergeDeep(r.fields[k], s.fields[k]) == r.fields[k]
    {
      var sk := s.fields[k];
      IsObjectIsPlainObject(sk);
      if k in t.fields {
        IsObjectIsPlainObject(t.fields[k]);
        MergeDeepIdempotent(t.fields[k], sk);
      } else {
        MergeDeepSelf(sk);
      }
    }
    assert MergeDeep(r, s).fields == r.fields;
  }

  /** Without agreeing shapes it is not: an object stored over a primitive
      default is dropped by the first merge and comes back in the second. */
  lemma MergeDeepNotIdempotentOverPrimitive()
    ensures var t := JObj(map["a" := JNum(1)]);
      var s := JObj(map["a" := JObj(map["b" := JBool(true)])]);
      && MergeDeep(t, s) == JObj(map["a" := Empty])
      && MergeDeep(MergeDeep(t, s), s) == s
  {
    var t := JObj(map["a" := JNum(1)]);
    var s := JObj(map["a" := JObj(map["b" := JBool(true)])]);
    assert MergeDeep(t, s).fields == map["a" := Empty];
    var inner := JObj(map["b" := JBool(true)]);
    assert MergeDeep(Empty, inner) == inner;
    assert MergeDeep(MergeDeep(t, s), s).fields == s.fields;
  }

  /** A stored value wins: reading any path that leads to a non-object in
      the source gives the source's value in the merge, as long as every
      object of the source lies over an object (or nothing) in the target. */
  lemma {:induction false} MergeDeepSourceWins(t: Json, s: Json, path: seq<string>)
    requires ShapeCompatible(t, s)
    requires !Walk(s, path).JObj? && Walk(s, path) != JUndefined
    ensures Walk(MergeDeep(t, s), path) == Walk(s, path)
    decreases s
  {
    var r := MergeDeep(t, s);
    assert path != [];
    var k := path[0];
    if k in s.fields {
      var sk := s.fields[k];
      IsObjectIsPlainObject(sk);
      if sk.JObj? && k in t.fields {
        assert r.fields[k] == MergeDeep(t.fields[k], sk);
        assert Walk(s, path) == Walk(sk, path[1..]);
        MergeDeepSourceWins(t.fields[k], sk, path[1..]);
      } else {
        assert r.fields[k] == sk;
      }
    } else {
      assert false;
    }
  }

  /** The portion of the merged object that is built after the source keys
      in `done` have been visited. */
  function MergedUpTo(t: Fields, s: Fields, done: set<string>): Fields
    requires done <= s.Keys
  {
    map k | k in t.Keys + done ::
      if k !in done then t[k]
      else if IsObject(s[k]) && k in t then MergeDeep(t[k], s[k])
      else s[k]
  }

  /** One more source key assigned. */
  lemma MergedUpToStep(t: Fields, s: Fields, done: set<string>, k: string)
    requires done <= s.Keys && k in s && k !in done
    ensures MergedUpTo(t, s, done + {k}) ==
      MergedUpTo(t, s, done)[k := if IsObject(s[k]) && k in t then MergeDeep(t[k], s[k]) else s[k]]
  {
  }

  /** `mergeDeep` as the source runs it: copy the target, then assign each
      source key in turn, recursing into source objects. */
  method MergeDeepBuild(t: Json, s: Json) returns (out: Json)
    ensures out == MergeDeep(t, s)
    decreases s
  {
    var output := OwnProperties(t);
    if IsObject(t) && IsObject(s) {
      var todo := s.fields.Keys;
      while todo != {}
        invariant todo <= s.fields.Keys
        invariant output == MergedUpTo(t.fields, s.fields, s.fields.Keys - todo)
        decreases todo
      {
        var k := Pick(todo);
        var sv := s.fields[k];
        if IsObject(sv) {
          if k !in t.fields {
            output := output[k := sv];
          } else {
            var m := MergeDeepBuild(t.fields[k], sv);
            output := output[k := m];
          }
        } else {
          output := output[k := sv];
        }
        ghost var done := s.fields.Keys - todo;
        MergedUpToStep(t.fields, s.fields, done, k);
        todo := todo - {k};
        assert s.fields.Keys - todo == done + {k};
      }
      assert output == MergeDeep(t, s).fields;
    }
    out := JObj(output);
  }

  // ------------------------------------------------ getNestedProperty

  /** `keys.reduce((current, key) => current && current[key], v)`. */
  function Walk(v: Json, keys: seq<string>): Json
    decreases |keys|
  {
    if keys == [] || !Truthy(v) then v else Walk(Member(v, keys[0]), keys[1..])
  }

  /** `getNestedProperty(obj, path)`; it never throws, since only truthy
      values are read from.  A falsy object comes back as it is, and a path
      without a dot reads one property. */
  function GetNestedProperty(obj: Json, path: string): (r: Json)
    ensures !Truthy(obj) ==> r == obj
    ensures '.' !in path && Truthy(obj) ==> r == Member(obj, path)
  {
    var keys := Split(path, '.');
    if '.' !in path then
      assert IndexOf(path, '.') == |path|;
      assert keys == [path];
      assert Truthy(obj) ==> Walk(obj, keys) == Walk(Member(obj, path), []);
      Walk(obj, keys)
    else
      Walk(obj, keys)
  }

  // ------------------------------------------------ setNestedProperty

  /** The outcome of a nested write: the new tree; a TypeError (a property
      written on a primitive value under strict mode); or a write through an
      array.  That one succeeds in the source, but it gives the array a named
      property, which JSON values cannot hold and storage does not keep, so
      the tree as stored is unchanged. */
  datatype SetOutcome = Written(tree: Json) | Thrown | ThroughArray

  /** Writes `v` under `last` in the object reached from `node` by `keys`;
      an intermediate value that is missing or falsy is replaced by `{}`. */
  function SetPath(node: Json, keys: seq<string>, last: string, v: Json): (r: SetOutcome)
    ensures r.Written? ==> node.JObj? && r.tree.JObj?
    ensures r.Written? ==> var head := if keys == [] then last else keys[0];
      && r.tree.fields.Keys == node.fields.Keys + {head}
      && (forall k :: k in node.fields && k != head ==> r.tree.fields[k] == node.fields[k])
    decreases |keys|
  {
    match node
    case JObj(f) =>
      if keys == [] then Written(JObj(f[last := v]))
      else
        var k := keys[0];
        var child := if k in f && Truthy(f[k]) then f[k] else Empty;
        var sub := SetPath(child, keys[1..], last, v);
        if sub.Written? then Written(JObj(f[k := sub.tree])) else sub
    case JArr(_) => ThroughArray
    case _ => Thrown
  }

  /** `setNestedProperty(obj, path, value)`: the path is split at dots, the
      last part is the key written.  Only an object can be written into;
      success adds the path's first key and keeps every other key, and a
      path without a dot writes that one key of the object itself. */
  function SetNestedProperty(obj: Json, path: string, v: Json): (r: SetOutcome)
    ensures r.Written? ==>
      obj.JObj? && r.tree.JObj?
      && r.tree.fields.Keys == obj.fields.Keys + {Split(path, '.')[0]}
      && forall k :: k in obj.fields && k != Split(path, '.')[0] ==> r.tree.fields[k] == obj.fields[k]
    ensures '.' !in path && obj.JObj? ==> r == Written(JObj(obj.fields[path := v]))
    ensures obj.JArr? ==> r == ThroughArray
    ensures !obj.JObj? && !obj.JArr? ==> r == Thrown
  {
    var keys := Split(path, '.');
    SetPath(obj, keys[..|keys| - 1], keys[|keys| - 1], v)
  }

  lemma {:induction false} WalkAfterSetPath(node: Json, keys: seq<string>, last: string, v: Json)
    requires SetPath(node, keys, last, v).Written?
    ensures Walk(SetPath(node, keys, last, v).tree, keys + [last]) == v
    decreases |keys|
  {
    var t := SetPath(node, keys, last, v).tree;
    if keys == [] {
      assert Walk(t, [last]) == Walk(Member(t, last), []);
    } else {
      var k := keys[0];
      var child := if k in node.fields && Truthy(node.fields[k]) then node.fields[k] else Empty;
      WalkAfterSetPath(child, keys[1..], last, v);
      assert (keys + [last])[1..] == keys[1..] + [last];
    }
  }

  /** Get after set: reading the written path gives the written value. */
  lemma GetAfterSet(obj: Json, path: string, v: Json)
    requires SetNestedProperty(obj, path, v).Written?
    ensures GetNestedProperty(SetNestedProperty(obj, path, v).tree, path) == v
  {
    var keys := Split(path, '.');
    var front, last := keys[..|keys| - 1], keys[|keys| - 1];
    var tree := SetPath(obj, front, last, v).tree;
    assert SetNestedProperty(obj, path, v).tree == tree;
    WalkAfterSetPath(obj, front, last, v);
    assert front + [last] == keys;
    assert GetNestedProperty(tree, path) == Walk(tree, keys);
  }

  /** Every node on the path from `node` that already exists as a truthy
      value is an object (missing and falsy ones are created). */
  predicate ObjectsAlong(node: Json, keys: seq<string>)
    decreases |keys|
  {
    node.JObj? &&
    (keys == [] || keys[0] !in node.fields || !Truthy(node.fields[keys[0]])
     || ObjectsAlong(node.fields[keys[0]], keys[1..]))
  }

  /** The write succeeds exactly when it meets no array and no truthy
      primitive on the way; in particular, on a path of objects. */
  lemma {:induction false} SetPathSucceeds(node: Json, keys: seq<string>, last: string, v: Json)
    requires ObjectsAlong(node, keys)
    ensures SetPath(node, keys, last, v).Written?
    decreases |keys|
  {
    if keys != [] {
      var k := keys[0];
      if k in node.fields && Truthy(node.fields[k]) {
        SetPathSucceeds(node.fields[k], keys[1..], last, v);
      } else {
        SetPathSucceeds(Empty, keys[1..], last, v);
      }
    }
  }

  /** An object created for a missing intermediate key holds only the path. */
  lemma {:induction false} SetPathCreates(node: Json, keys: seq<string>, last: string, v: Json)
    requires node.JObj? && keys != [] && (keys[0] !in node.fields || !Truthy(node.fields[keys[0]]))
    ensures SetPath(node, keys, last, v).Written?
    ensures SetPath(node, keys, last, v).tree.fields[keys[0]].JObj?
    ensures SetPath(node, keys, last, v).tree.fields[keys[0]].fields.Keys
            == {if |keys| == 1 then last else keys[1]}
  {
    SetPathSucceeds(Empty, keys[1..], last, v);
  }

  /** `q` leaves the path `p` at some position, and each node of the prefix
      they share already exists as a truthy value. */
  predicate LeavesPath(node: Json, q: seq<string>, p: seq<string>)
    decreases |q|
  {
    |q| > 0 && |p| > 0 && node.JObj? &&
    (q[0] != p[0]
     || (q[0] in node.fields && Truthy(node.fields[q[0]]) && LeavesPath(node.fields[q[0]], q[1..], p[1..])))
  }

  /** Frame: a path that leaves the written path reads the same value after
      the write as before. */
  lemma {:induction false} SetPathFrame(node: Json, keys: seq<string>, last: string, v: Json, q: seq<string>)
    requires SetPath(node, keys, last, v).Written?
    requires LeavesPath(node, q, keys + [last])
    ensures Walk(SetPath(node, keys, last, v).tree, q) == Walk(node, q)
    decreases |keys|
  {
    var t := SetPath(node, keys, last, v).tree;
    var p := keys + [last];
    var head := if keys == [] then last else keys[0];
    assert p[0] == head;
    if q[0] != head {
      assert Member(t, q[0]) == Member(node, q[0]);
    } else {
      assert keys != [];
      assert p[1..] == keys[1..] + [last];
      var child := node.fields[q[0]];
      SetPathFrame(child, keys[1..], last, v, q[1..]);
    }
  }

  /** A path that does not cross a dot-free key twice: the parts of a dotted
      path without a dot in either part. */
  lemma SplitTwo(a: string, b: string)
    requires '.' !in a && '.' !in b
    ensures Split(a + "." + b, '.') == [a, b]
  {
    var s := a + "." + b;
    assert IndexOf(s, '.') == |a| by {
      assert s[|a|] == '.';
      assert forall i :: 0 <= i < |a| ==> s[i] == a[i];
    }
    assert s[..|a|] == a;
    assert s[|a| + 1..] == b;
  }

  lemma SplitOne(a: string)
    requires '.' !in a
    ensures Split(a, '.') == [a]
  {
  }

  /** A two-level write whose group holds an array goes through the array,
      and one whose group holds a truthy primitive throws. */
  lemma WriteIntoGroupOf(f: map<string, Json>, group: string, key: string, v: Json)
    requires '.' !in group && '.' !in key && group in f
    ensures f[group].JArr? ==> SetNestedProperty(JObj(f), group + "." + key, v) == ThroughArray
    ensures Truthy(f[group]) && !f[group].JArr? && !f[group].JObj? ==>
      SetNestedProperty(JObj(f), group + "." + key, v) == Thrown
  {
    SplitTwo(group, key);
    var keys := Split(group + "." + key, '.');
    assert keys[..|keys| - 1] == [group] && keys[|keys| - 1] == key;
    if Truthy(f[group]) && !f[group].JObj? {
      assert SetPath(JObj(f), [group], key, v) == SetPath(f[group], [], key, v);
    }
  }

  // ------------------------------------------------ defaults and maps

  const AccessibilityDefaults: Json := JObj(map[
    "highContrast" := JBool(false), "reducedMotion" := JBool(false),
    "fontSize" := JStr("normal"), "keyboardNavigation" := JBool(true),
    "focusIndicators" := JBool(true), "screenReaderSupport" := JBool(true)])

  const AdvancedDefaults: Json := JObj(map[
    "customCSS" := JStr(""), "debugMode" := JBool(false),
    "experimentalFeatures" := JBool(false), "betaUpdates" := JBool(false),
    "lazyLoading" := JBool(true), "cacheEnabled" := JBool(true),
    "batchSize" := JNum(25)])

  const AppearanceDefaults: Json := JObj(map[
    "borderRadius" := JNum(8), "animationSpeed" := JStr("normal"),
    "enableShadows" := JBool(true)])

  const NotificationsDefaults: Json := JObj(map[
    "showNotifications" := JBool(true), "updateCheck" := JBool(true)])

  /** The settings tree the page starts from and resets to. */
  const DefaultSettings: Json := JObj(map[
    "enabled" := JBool(true), "theme" := JStr("light"), "animations" := JBool(true),
    "accentColor" := JStr("#4318FF"), "compactMode" := JBool(false),
    "autoDetect" := JBool(true), "performance" := JStr("balanced"),
    "accessibility" := AccessibilityDefaults, "advanced" := AdvancedDefaults,
    "appearance" := AppearanceDefaults, "notifications" := NotificationsDefaults])

  const DefaultStats: Json := JObj(map[
    "totalTransformations" := JNum(0), "totalSessions" := JNum(0),
    "averagePerformance" := JNum(0), "installDate" := JNull])

  /** The groups of nested settings. */
  const Groups: set<string> := {"accessibility", "advanced", "appearance", "notifications"}

  /** A settings tree whose nested groups are all objects. */
  predicate SettingsShape(t: Json) {
    t.JObj? && forall g :: g in Groups ==> g in t.fields && t.fields[g].JObj?
  }

  lemma DefaultsHaveShape()
    ensures SettingsShape(DefaultSettings)
  {
  }

  /** A setting the page's controls write: a top-level key, or a key of one
      of the nested groups. */
  datatype SettingRef = Top(key: string) | Nested(group: string, key: string)
  {
    /** The dotted path the source's tables hold for this setting. */
    function Path(): string {
      match this
      case Top(k) => k
      case Nested(g, k) => g + "." + k
    }

    predicate Valid() {
      '.' !in key && (if Nested? then group in Groups else key !in Groups)
    }
  }

  /** The first entry of `table` filed under `id`. */
  function Lookup(table: seq<(string, SettingRef)>, id: string): (r: Option<SettingRef>)
    ensures r.Some? ==> exists i :: 0 <= i < |table| && table[i] == (id, r.value)
    ensures r.None? ==> forall i :: 0 <= i < |table| ==> table[i].0 != id
  {
    if table == [] then None
    else if table[0].0 == id then Some(table[0].1)
    else
      var r := Lookup(table[1..], id);
      assert r.Some? ==> exists i :: 0 <= i < |table| && table[i] == (id, r.value) by {
        if r.Some? {
          var i :| 0 <= i < |table| - 1 && table[1..][i] == (id, r.value);
          assert table[i + 1] == (id, r.value);
        }
      }
      r
  }

  predicate AllValid(table: seq<(string, SettingRef)>) {
    forall i :: 0 <= i < |table| ==> table[i].1.Valid()
  }

  /** The toggle switches of the page and the setting each one writes. */
  const ToggleTable: seq<(string, SettingRef)> := [
    ("enableExtension", Top("enabled")),
    ("autoDetect", Top("autoDetect")),
    ("showNotifications", Nested("notifications", "showNotifications")),
    ("updateCheck", Nested("notifications", "updateCheck")),
    ("enableAnimations", Top("animations")),
    ("enableShadows", Nested("appearance", "enableShadows")),
    ("compactMode", Top("compactMode")),
    ("lazyLoading", Nested("advanced", "lazyLoading")),
    ("cacheEnabled", Nested("advanced", "cacheEnabled")),
    ("highContrast", Nested("accessibility", "highContrast")),
    ("reducedMotion", Nested("accessibility", "reducedMotion")),
    ("keyboardNavigation", Nested("accessibility", "keyboardNavigation")),
    ("focusIndicators", Nested("accessibility", "focusIndicators")),
    ("screenReaderSupport", Nested("accessibility", "screenReaderSupport")),
    ("experimentalFeatures", Nested("advanced", "experimentalFeatures")),
    ("debugMode", Nested("advanced", "debugMode")),
    ("betaUpdates", Nested("advanced", "betaUpdates"))]

  /** The drop-downs of the page and the setting each one writes. */
  const SelectTable: seq<(string, SettingRef)> := [
    ("themeSelect", Top("theme")),
    ("animationSpeed", Nested("appearance", "animationSpeed")),
    ("fontSize", Nested("accessibility", "fontSize")),
    ("performanceSelect", Top("performance"))]

  lemma ToggleTableValidFirst()
    ensures forall i :: 0 <= i < 6 ==> ToggleTable[i].1.Valid()
  {
  }

  lemma ToggleTableValidMiddle()
    ensures forall i :: 6 <= i < 12 ==> ToggleTable[i].1.Valid()
  {
  }

  lemma ToggleTableValidLast()
    ensures forall i :: 12 <= i < |ToggleTable| ==> ToggleTable[i].1.Valid()
  {
  }

  lemma TablesValid()
    ensures AllValid(ToggleTable) && AllValid(SelectTable)
  {
    ToggleTableValidFirst();
    ToggleTableValidMiddle();
    ToggleTableValidLast();
  }

  function ToggleRef(id: string): (r: Option<SettingRef>)
    ensures r.Some? ==> r.value.Valid()
  {
    TablesValid();
    Lookup(ToggleTable, id)
  }

  function SelectRef(id: string): (r: Option<SettingRef>)
    ensures r.Some? ==> r.value.Valid()
  {
    TablesValid();
    Lookup(SelectTable, id)
  }

  /** The dotted path `settingMap[id]` of the toggle table. */
  function ToggleSetting(id: string): Option<string> {
    if ToggleRef(id).Some? then Some(ToggleRef(id).value.Path()) else None
  }

  /** The dotted path `settingMap[id]` of the drop-down table. */
  function SelectSetting(id: string): Option<string> {
    if SelectRef(id).Some? then Some(SelectRef(id).value.Path()) else None
  }

  lemma WriteTopSetting(t: Json, k: string, v: Json)
    requires SettingsShape(t) && '.' !in k
    ensures SetNestedProperty(t, k, v) == SetPath(t, [], k, v)
  {
    SplitOne(k);
  }

  lemma WriteNestedSetting(t: Json, g: string, k: string, v: Json)
    requires SettingsShape(t) && g in Groups && '.' !in k
    ensures SetNestedProperty(t, g + "." + k, v) == SetPath(t, [g], k, v)
    ensures SetPath(t, [g], k, v).Written?
    ensures SetPath(t, [g], k, v).tree.fields[g] == JObj(t.fields[g].fields[k := v])
  {
    assert '.' !in g;
    SplitTwo(g, k);
    var keys := Split(g + "." + k, '.');
    assert keys[..|keys| - 1] == [g];
  }

  /** On a tree of the settings' shape, writing a setting succeeds, keeps the
      shape, stores the value, and leaves every other top-level key, and
      every other key of the same group, as it was. */
  lemma WriteSetting(t: Json, ref: SettingRef, v: Json)
    requires SettingsShape(t) && ref.Valid()
    ensures SetNestedProperty(t, ref.Path(), v).Written?
    ensures var t' := SetNestedProperty(t, ref.Path(), v).tree;
      && SettingsShape(t')
      && GetNestedProperty(t', ref.Path()) == v
      && (forall k :: k in t.fields && k != (if ref.Top? then ref.key else ref.group) ==>
            t'.fields[k] == t.fields[k])
      && (ref.Nested? ==> forall k :: k in t.fields[ref.group].fields && k != ref.key ==>
            t'.fields[ref.group].fields[k] == t.fields[ref.group].fields[k])
  {
    match ref
    case Top(k) => WriteTopSettingShape(t, k, v);
    case Nested(g, k) =>
      WriteNestedSettingShape(t, g, k, v);
      var t' := SetNestedProperty(t, ref.Path(), v).tree;
      assert t'.fields[g].fields == t.fields[g].fields[k := v];
  }

  lemma WriteTopSettingShape(t: Json, k: string, v: Json)
    requires SettingsShape(t) && '.' !in k && k !in Groups
    ensures SetNestedProperty(t, k, v).Written?
    ensures var t' := SetNestedProperty(t, k, v).tree;
      && SettingsShape(t')
      && GetNestedProperty(t', k) == v
      && (forall j :: j in t.fields && j != k ==> t'.fields[j] == t.fields[j])
  {
    WriteTopSetting(t, k, v);
    GetAfterSet(t, k, v);
    var t' := SetNestedProperty(t, k, v).tree;
    assert t'.fields == t.fields[k := v];
  }

  lemma WriteNestedSettingShape(t: Json, g: string, k: string, v: Json)
    requires SettingsShape(t) && g in Groups && '.' !in k
    ensures SetNestedProperty(t, g + "." + k, v).Written?
    ensures var t' := SetNestedProperty(t, g + "." + k, v).tree;
      && SettingsShape(t')
      && GetNestedProperty(t', g + "." + k) == v
      && (forall j :: j in t.fields && j != g ==> t'.fields[j] == t.fields[j])
      && t'.fields[g] == JObj(t.fields[g].fields[k := v])
  {
    WriteNestedSetting(t, g, k, v);
    GetAfterSet(t, g + "." + k, v);
  }

  /** `isValidUrlPattern`: a wildcard anywhere, or an http(s) prefix; so
      an `https` address is valid and the empty pattern is not. */
  function IsValidUrlPattern(pattern: string): (r: bool)
    ensures StartsWith(pattern, "https") ==> r
    ensures pattern == "" ==> !r
  {
    assert StartsWith(pattern, "https") ==> pattern[..4] == "http";
    Contains(pattern, "*") || StartsWith(pattern, "http")
  }

  lemma UrlPatternMeaning(pattern: string)
    ensures IsValidUrlPattern(pattern) <==>
      ('*' in pattern || (|pattern| >= 4 && pattern[..4] == "http"))
  {
    ContainsChar(pattern, '*');
  }

  /** `capitalizeFirst`: only the first character is upper-cased. */
  function CapitalizeFirst(s: string): (r: string)
    ensures |r| == |s|
    ensures s != [] ==> r[0] == UpperChar(s[0]) && r[1..] == s[1..]
  {
    if s == [] then "" else ToUpper(s[..1]) + s[1..]
  }

  lemma CapitalizeFirstIdempotent(s: string)
    ensures CapitalizeFirst(CapitalizeFirst(s)) == CapitalizeFirst(s)
  {
  }

  // ------------------------------------------------ the page's state

  class OptionsManager {
    var settings: Json
    var stats: Json
    var unsavedChanges: bool
    /** The `horizonSettings` entry of the synced storage. */
    var storedSettings: Json

    predicate Valid()
      reads this
    {
      settings.JObj? && stats.JObj?
    }

    constructor()
      ensures Valid()
      ensures settings == DefaultSettings && stats == DefaultStats
      ensures !unsavedChanges && storedSettings == JUndefined
    {
      settings := DefaultSettings;
      stats := DefaultStats;
      unsavedChanges := false;
      storedSettings := JUndefined;
    }

    /** `loadSettings`: a stored tree is merged deeply over the current one. */
    method LoadSettings(stored: Json)
      requires Valid()
      modifies this
      ensures Valid()
      ensures settings == if Truthy(stored) then MergeDeep(old(settings), stored) else old(settings)
      ensures stats == old(stats) && unsavedChanges == old(unsavedChanges)
      ensures storedSettings == old(storedSettings)
    {
      if Truthy(stored) {
        settings := MergeDeepBuild(settings, stored);
      }
    }

    /** `loadStats`: stored statistics are spread over the current ones. */
    method LoadStats(stored: Json)
      requires Valid()
      modifies this
      ensures Valid()
      ensures stats == if Truthy(stored) then Spread(old(stats), stored) else old(stats)
      ensures settings == old(settings) && unsavedChanges == old(unsavedChanges)
      ensures storedSettings == old(storedSettings)
    {
      if Truthy(stored) {
        stats := Spread(stats, stored);
      }
    }

    /** `saveSettings`: the tree is stored and the page is clean again. */
    method SaveSettings()
      modifies this
      ensures storedSettings == old(settings) && !unsavedChanges
      ensures settings == old(settings) && stats == old(stats)
    {
      storedSettings := settings;
      unsavedChanges := false;
    }

    /** Writes `v` at the dotted path in place; a write that throws leaves
        the tree as it was. */
    method WriteNested(path: string, v: Json) returns (outcome: SetOutcome)
      requires Valid()
      modifies this
      ensures Valid()
      ensures outcome == SetNestedProperty(old(settings), path, v)
      ensures settings == if outcome.Written? then outcome.tree else old(settings)
      ensures stats == old(stats) && unsavedChanges == old(unsavedChanges)
      ensures storedSettings == old(storedSettings)
    {
      outcome := SetNestedProperty(settings, path, v);
      if outcome.Written? {
        settings := outcome.tree;
      }
    }

    /** `updateSettingFromToggle`: an unknown id changes nothing; a known one
        writes its path and marks the page unsaved unless the write threw. */
    method UpdateSettingFromToggle(id: string, checked: bool) returns (outcome: Option<SetOutcome>)
      requires Valid()
      modifies this
      ensures Valid()
      ensures ToggleSetting(id).None? ==>
        outcome.None? && settings == old(settings) && unsavedChanges == old(unsavedChanges)
      ensures ToggleSetting(id).Some? ==>
        outcome == Some(SetNestedProperty(old(settings), ToggleSetting(id).value, JBool(checked)))
      ensures outcome.Some? && outcome.value.Written? ==>
        settings == outcome.value.tree && unsavedChanges
        && GetNestedProperty(settings, ToggleSetting(id).value) == JBool(checked)
      ensures outcome.Some? && outcome.value.ThroughArray? ==> settings == old(settings) && unsavedChanges
      ensures outcome.Some? && outcome.value.Thrown? ==>
        settings == old(settings) && unsavedChanges == old(unsavedChanges)
      ensures stats == old(stats) && storedSettings == old(storedSettings)
    {
      var path := ToggleSetting(id);
      outcome := WriteMapped(path, JBool(checked));
    }

    /** `updateSettingFromSelect`, the same for the drop-downs. */
    method UpdateSettingFromSelect(id: string, value: string) returns (outcome: Option<SetOutcome>)
      requires Valid()
      modifies this
      ensures Valid()
      ensures SelectSetting(id).None? ==>
        outcome.None? && settings == old(settings) && unsavedChanges == old(unsavedChanges)
      ensures SelectSetting(id).Some? ==>
        outcome == Some(SetNestedProperty(old(settings), SelectSetting(id).value, JStr(value)))
      ensures outcome.Some? && outcome.value.Written? ==>
        settings == outcome.value.tree && unsavedChanges
        && GetNestedProperty(settings, SelectSetting(id).value) == JStr(value)
      ensures outcome.Some? && outcome.value.ThroughArray? ==> settings == old(settings) && unsavedChanges
      ensures outcome.Some? && outcome.value.Thrown? ==>
        settings == old(settings) && unsavedChanges == old(unsavedChanges)
      ensures stats == old(stats) && storedSettings == old(storedSettings)
    {
      var path := SelectSetting(id);
      outcome := WriteMapped(path, JStr(value));
    }

    /** The body both handlers share: nothing happens for a control without
        a mapped setting, otherwise the write is attempted and, unless it
        threw, the page is marked as having unsaved changes. */
    method WriteMapped(path: Option<string>, v: Json) returns (outcome: Option<SetOutcome>)
      requires Valid()
      modifies this
      ensures Valid()
      ensures path.None? ==>
        outcome.None? && settings == old(settings) && unsavedChanges == old(unsavedChanges)
      ensures path.Some? ==> outcome == Some(SetNestedProperty(old(settings), path.value, v))
      ensures outcome.Some? && outcome.value.Written? ==>
        settings == outcome.value.tree && unsavedChanges
        && GetNestedProperty(settings, path.value) == v
      ensures outcome.Some? && outcome.value.ThroughArray? ==> settings == old(settings) && unsavedChanges
      ensures outcome.Some? && outcome.value.Thrown? ==>
        settings == old(settings) && unsavedChanges == old(unsavedChanges)
      ensures stats == old(stats) && storedSettings == old(storedSettings)
    {
      outcome := None;
      if path.Some? {
        var o := WriteNested(path.value, v);
        outcome := Some(o);
        if o.Written? {
          GetAfterSet(old(settings), path.value, v);
        }
        if !o.Thrown? {
          unsavedChanges := true;
        }
      }
    }

    /** `resetSettings`: after confirmation the default tree comes back and
        is saved, and the install date and both counters are carried over
        into the statistics. */
    method ResetSettings(confirmed: bool)
      requires Valid()
      modifies this
      ensures Valid()
      ensures !confirmed ==>
        settings == old(settings) && stats == old(stats)
        && unsavedChanges == old(unsavedChanges) && storedSettings == old(storedSettings)
      ensures confirmed ==>
        settings == DefaultSettings && storedSettings == DefaultSettings && !unsavedChanges
        && stats == Spread(old(stats), PreservedStats(old(stats)))
    {
      if confirmed {
        var preserved := PreservedStats(stats);
        settings := DefaultSettings;
        stats := Spread(stats, preserved);
        SaveSettings();
      }
    }

    /** A toggle on a tree of the settings' shape always takes effect. */
    lemma ToggleOnShapedSettings(t: Json, id: string, checked: bool)
      requires SettingsShape(t) && ToggleSetting(id).Some?
      ensures SetNestedProperty(t, ToggleSetting(id).value, JBool(checked)).Written?
      ensures SettingsShape(SetNestedProperty(t, ToggleSetting(id).value, JBool(checked)).tree)
    {
      WriteSetting(t, ToggleRef(id).value, JBool(checked));
    }
  }

  /** The statistics a reset keeps. */
  function PreservedStats(stats: Json): (r: Json)
    requires stats.JObj?
  {
    JObj(map[
      "installDate" := Member(stats, "installDate"),
      "totalTransformations" := Member(stats, "totalTransformations"),
      "totalSessions" := Member(stats, "totalSessions")])
  }

  /** The reset keeps the three preserved statistics and every other one. */
  lemma ResetKeepsStats(stats: Json)
    requires stats.JObj?
    ensures var r := Spread(stats, PreservedStats(stats));
      && (forall k :: k in {"installDate", "totalTransformations", "totalSessions"} ==>
            Member(r, k) == Member(stats, k))
      && (forall k :: k in stats.fields ==> Member(r, k) == stats.fields[k])
  {
  }
}
