/** JavaScript values as the extension's settings, stats and messages use
    them: JSON data plus `undefined`.  Objects are finite maps from property
    names to values (property order is not modelled). */
module Json {
  import opened JsText

  datatype Json =
    | JUndefined
    | JNull
    | JBool(b: bool)
    | JNum(n: int)
    | JStr(s: string)
    | JArr(items: seq<Json>)
    | JObj(fields: map<string, Json>)

  type Fields = map<string, Json>

  const Empty: Json := JObj(map[])

  /** JavaScript truthiness (ToBoolean). */
  predicate Truthy(v: Json) {
    match v
    case JUndefined => false
    case JNull => false
    case JBool(b) => b
    case JNum(n) => n != 0
    case JStr(s) => s != ""
    case _ => true
  }

  /** The `typeof` operator. */
  function TypeOf(v: Json): string {
    match v
    case JUndefined => "undefined"
    case JBool(_) => "boolean"
    case JNum(_) => "number"
    case JStr(_) => "string"
    case _ => "object"
  }

  function IsArray(v: Json): bool { v.JArr? }

  /** `item && typeof item === 'object' && !Array.isArray(item)`, the object
      test of the settings utilities. */
  predicate IsObject(v: Json) {
    Truthy(v) && TypeOf(v) == "object" && !IsArray(v)
  }

  lemma IsObjectIsPlainObject(v: Json)
    ensures IsObject(v) <==> v.JObj?
  {
  }

  /** The canonical array index a property name denotes, if any: a decimal
      numeral without leading zeros. */
  predicate CanonicalNumeral(key: string) {
    key != [] && (forall i :: 0 <= i < |key| ==> '0' <= key[i] <= '9')
    && (key == "0" || key[0] != '0')
  }

  lemma NatToStringCanonical(n: nat)
    ensures CanonicalNumeral(NatToString(n))
  {
    if n == 0 {
      assert NatToString(n) == [DigitChar(0)];
      assert DigitChar(0) == '0';
    }
  }

  function ArrayIndex(key: string): (r: Option<nat>)
    ensures r.Some? ==> NatToString(r.value) == key
  {
    if CanonicalNumeral(key) then
      assert IsDigits(key, 10);
      var n := DigitsValue(key, 10);
      if NatToString(n) == key then Some(n) else None
    else None
  }

  lemma NatToStringInjective(a: nat, b: nat)
    requires NatToString(a) == NatToString(b)
    ensures a == b
  {
    DigitsValueOfNatToString(a);
    DigitsValueOfNatToString(b);
  }

  /** Every canonical index numeral is recognised as one. */
  lemma ArrayIndexOfNatToString(n: nat)
    ensures ArrayIndex(NatToString(n)) == Some(n)
  {
    var s := NatToString(n);
    NatToStringCanonical(n);
    assert IsDigits(s, 10);
    DigitsValueOfNatToString(n);
    assert DigitsValue(s, 10) == n;
  }

  /** The properties `{ ...xs }` gives an array-like value: its elements
      under the keys "0", "1", .... */
  function Indexed(xs: seq<Json>): (r: Fields)
    ensures forall i :: 0 <= i < |xs| ==> NatToString(i) in r && r[NatToString(i)] == xs[i]
    ensures forall k :: k in r ==> exists i :: 0 <= i < |xs| && NatToString(i) == k
  {
    var r := map k | k in (set i | 0 <= i < |xs| :: NatToString(i)) :: xs[ArrayIndexOf(k, |xs|)];
    assert forall i :: 0 <= i < |xs| ==> ArrayIndexOf(NatToString(i), |xs|) == i by {
      forall i | 0 <= i < |xs| ensures ArrayIndexOf(NatToString(i), |xs|) == i {
        ArrayIndexOfNatToString(i);
      }
    }
    r
  }

  function ArrayIndexOf(k: string, n: nat): (i: nat)
    requires exists i :: 0 <= i < n && NatToString(i) == k
    ensures i < n && NatToString(i) == k
  {
    var j :| 0 <= j < n && NatToString(j) == k;
    ArrayIndexOfNatToString(j);
    ArrayIndex(k).value
  }

  function Chars(s: string): (r: seq<Json>)
    ensures |r| == |s|
    ensures forall i :: 0 <= i < |s| ==> r[i] == JStr([s[i]])
  {
    seq(|s|, i requires 0 <= i < |s| => JStr([s[i]]))
  }

  /** The own enumerable properties `Object.assign({}, v)` and `{ ...v }`
      copy out of `v`: an object's fields, a string's characters, an array's
      elements, and nothing for any other value. */
  function OwnProperties(v: Json): (r: Fields)
    ensures v.JObj? ==> r == v.fields
    ensures !v.JObj? && !v.JStr? && !v.JArr? ==> r == map[]
  {
    match v
    case JObj(f) => f
    case JStr(s) => Indexed(Chars(s))
    case JArr(xs) => Indexed(xs)
    case _ => map[]
  }

  /** `{ ...a, ...b }`: the properties of `b` override those of `a`. */
  function Spread(a: Json, b: Json): (r: Json)
    ensures r.JObj?
    ensures r.fields.Keys == OwnProperties(a).Keys + OwnProperties(b).Keys
    ensures forall k :: k in OwnProperties(b) ==> r.fields[k] == OwnProperties(b)[k]
    ensures forall k :: k in OwnProperties(a) && k !in OwnProperties(b) ==> r.fields[k] == OwnProperties(a)[k]
  {
    JObj(OwnProperties(a) + OwnProperties(b))
  }

  /** Spreading a value over itself, or `{}` over a value, changes nothing
      but the copy. */
  lemma SpreadNeutral(a: Json)
    requires a.JObj?
    ensures Spread(a, Empty) == a && Spread(Empty, a) == a && Spread(a, a) == a
  {
  }

  /** Reading `v[key]` from a value that is neither `null` nor `undefined`
      (reading from those throws; callers never do). */
  function Member(v: Json, key: string): (r: Json)
  {
    match v
    case JObj(f) => if key in f then f[key] else JUndefined
    case JStr(s) =>
      if key == "length" then JNum(|s|)
      else
        var i := ArrayIndex(key);
        if i.Some? && i.value < |s| then JStr([s[i.value]]) else JUndefined
    case JArr(xs) =>
      if key == "length" then JNum(|xs|)
      else
        var i := ArrayIndex(key);
        if i.Some? && i.value < |xs| then xs[i.value] else JUndefined
    case _ => JUndefined
  }

  lemma MemberOfString(s: string, i: nat)
    requires i < |s|
    ensures Member(JStr(s), NatToString(i)) == JStr([s[i]])
  {
    ArrayIndexOfNatToString(i);
    assert NatToString(i) != "length" by {
      assert '0' <= NatToString(i)[0] <= '9';
    }
  }

  predicate Nullish(v: Json) {
    v.JUndefined? || v.JNull?
  }

  /** `Number(v)`, with `None` for `NaN`.  An empty array is 0, a
      one-element array converts through its element's string form, other
      arrays and objects are `NaN`. */
  function ToNumber(v: Json): (r: Option<Decimal>)
    ensures v.JNum? ==> r == Some(Decimal(v.n, 0))
    ensures v.JUndefined? || v.JObj? ==> r.None?
  {
    match v
    case JUndefined => None
    case JNull => Some(Decimal(0, 0))
    case JBool(b) => Some(Decimal(if b then 1 else 0, 0))
    case JNum(n) => Some(Decimal(n, 0))
    case JStr(s) => StringToNumber(s)
    case JArr(xs) =>
      if xs == [] then Some(Decimal(0, 0))
      else if |xs| == 1 && xs[0].JNum? then Some(Decimal(xs[0].n, 0))
      else if |xs| == 1 && xs[0].JStr? then StringToNumber(xs[0].s)
      else if |xs| == 1 && Nullish(xs[0]) then Some(Decimal(0, 0))
      else None
    case JObj(_) => None
  }

  /** A number and its decimal rendering convert to the same number, also
      inside a one-element array. */
  lemma ToNumberOfNumeral(n: nat)
    ensures ToNumber(JStr(NatToString(n))) == Some(Decimal(n, 0))
    ensures ToNumber(JArr([JStr(NatToString(n))])) == Some(Decimal(n, 0))
  {
    NumberOfNumeral(n);
    ToNumberOfSingleton(NatToString(n));
  }

  lemma ToNumberOfSingleton(s: string)
    ensures ToNumber(JArr([JStr(s)])) == StringToNumber(s)
  {
    var xs := [JStr(s)];
    assert !xs[0].JNum? && xs[0].JStr?;
  }

  /** `v > k` for a number `k`: false whenever `v` converts to `NaN`. */
  predicate GreaterThan(v: Json, k: int) {
    var d := ToNumber(v);
    d.Some? && CompareDecimal(d.value, Decimal(k, 0)) > 0
  }

  // ------------------------------------------------ property keys

  /** The property name `table[v]` looks up, for the values whose name can
      be one of the lower-case words the tables use: a string, and an array
      holding just one such value (its `toString` is that value's).  `None`
      for every other value, whose name (a numeral, "true", "null",
      "[object Object]", a comma-joined list, ...) is never a table word. */
  function KeyText(v: Json): (r: Option<string>)
    ensures v.JStr? ==> r == Some(v.s)
  {
    match v
    case JStr(s) => Some(s)
    case JArr(xs) => if |xs| == 1 && (xs[0].JStr? || xs[0].JArr?) then KeyText(xs[0]) else None
    case _ => None
  }

  /** `table[v] || table[dflt]`. */
  function LookupOr(table: map<string, string>, v: Json, dflt: string): (r: string)
    requires dflt in table
    ensures r in table.Values
  {
    var k := KeyText(v);
    if k.Some? && k.value in table && table[k.value] != "" then table[k.value] else table[dflt]
  }

  /** A string naming a table entry finds it; anything else finds the
      fallback entry. */
  lemma LookupOrChoice(table: map<string, string>, v: Json, dflt: string)
    requires dflt in table
    requires forall k :: k in table ==> table[k] != ""
    ensures v.JStr? && v.s in table ==> LookupOr(table, v, dflt) == table[v.s]
    ensures KeyText(v).None? || KeyText(v).value !in table ==> LookupOr(table, v, dflt) == table[dflt]
    ensures LookupOr(table, JArr([v]), dflt) == LookupOr(table, v, dflt) || !(v.JStr? || v.JArr?)
  {
  }

  /** The text `style.setProperty` stores for a settings value, where the
      model follows it. */
  function CssText(v: Json): Option<string> {
    match v
    case JStr(s) => Some(s)
    case JUndefined => Some("undefined")
    case JBool(b) => Some(if b then "true" else "false")
    case _ => None
  }
}
