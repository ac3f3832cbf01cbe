/** JavaScript string built-ins used throughout the extension, stated on
    `string` (a sequence of Unicode scalar values). */
module JsText {

  datatype Option<+T> = None | Some(value: T)

  /** The code points that `String.prototype.trim` removes and that the
      regular-expression class `\s` matches (WhiteSpace and LineTerminator). */
  predicate IsSpace(c: char) {
    c == ' ' || c == '\t' || c == '\n' || c == '\r' || c == '\U{000B}' || c == '\U{000C}'
    || c == '\U{00A0}' || c == '\U{1680}' || ('\U{2000}' <= c <= '\U{200A}')
    || c == '\U{2028}' || c == '\U{2029}' || c == '\U{202F}' || c == '\U{205F}'
    || c == '\U{3000}' || c == '\U{FEFF}'
  }

  /** Some element of a non-empty set: the next key an iteration over a
      `Map` or an object's keys visits (the order is not modelled). */
  method Pick<T>(keys: set<T>) returns (k: T)
    requires keys != {}
    ensures k in keys
  {
    NonEmptyHasMember(keys);
    k :| k in keys;
  }

  lemma NonEmptyHasMember<T>(keys: set<T>)
    requires keys != {}
    ensures exists k :: k in keys
  {
    if forall k :: k !in keys {
      assert false;
    }
  }

  /** A prefix one longer is the prefix and the next element. */
  lemma TakeSnoc<T>(s: seq<T>, j: int)
    requires 0 <= j < |s|
    ensures s[..j + 1] == s[..j] + [s[j]]
  {
  }

  predicate IsTrimmed(s: string) {
    s == [] || (!IsSpace(s[0]) && !IsSpace(s[|s| - 1]))
  }

  function TrimStart(s: string): (r: string)
    ensures |r| <= |s| && r == s[|s| - |r|..]
    ensures r == [] || !IsSpace(r[0])
    ensures forall i :: 0 <= i < |s| - |r| ==> IsSpace(s[i])
  {
    if |s| > 0 && IsSpace(s[0]) then TrimStart(s[1..]) else s
  }

  function TrimEnd(s: string): (r: string)
    ensures |r| <= |s| && r == s[..|r|]
    ensures r == [] || !IsSpace(r[|r| - 1])
    ensures forall i :: |r| <= i < |s| ==> IsSpace(s[i])
  {
    if |s| > 0 && IsSpace(s[|s| - 1]) then TrimEnd(s[..|s| - 1]) else s
  }

  /** `String.prototype.trim`. */
  function Trim(s: string): (r: string)
    ensures IsTrimmed(r)
    ensures |r| <= |s|
  {
    var a := TrimStart(s);
    var r := TrimEnd(a);
    assert r == [] || !IsSpace(r[0]) by {
      if r != [] { assert r[0] == a[0]; }
    }
    r
  }

  lemma {:induction false} TrimOfTrimmed(s: string)
    requires IsTrimmed(s)
    ensures Trim(s) == s
  {
  }

  /** Per-character `toLowerCase` for the Latin and Cyrillic alphabets; every
      other code point is left as it is. */
  function LowerChar(c: char): (r: char)
  {
    if 'A' <= c <= 'Z' then (c as int + 32) as char
    else if '\U{0410}' <= c <= '\U{042F}' then (c as int + 32) as char
    else if '\U{0400}' <= c <= '\U{040F}' then (c as int + 80) as char
    else c
  }

  /** Per-character `toUpperCase`, the inverse of `LowerChar`. */
  function UpperChar(c: char): (r: char)
  {
    if 'a' <= c <= 'z' then (c as int - 32) as char
    else if '\U{0430}' <= c <= '\U{044F}' then (c as int - 32) as char
    else if '\U{0450}' <= c <= '\U{045F}' then (c as int - 80) as char
    else c
  }

  function ToLower(s: string): (r: string)
    ensures |r| == |s|
    ensures forall i :: 0 <= i < |s| ==> r[i] == LowerChar(s[i])
  {
    if s == [] then [] else [LowerChar(s[0])] + ToLower(s[1..])
  }

  function ToUpper(s: string): (r: string)
    ensures |r| == |s|
    ensures forall i :: 0 <= i < |s| ==> r[i] == UpperChar(s[i])
  {
    if s == [] then [] else [UpperChar(s[0])] + ToUpper(s[1..])
  }

  lemma LowerOfLower(s: string)
    ensures ToLower(ToLower(s)) == ToLower(s)
  {
  }

  predicate StartsWith(s: string, prefix: string) {
    |prefix| <= |s| && s[..|prefix|] == prefix
  }

  predicate EndsWith(s: string, suffix: string) {
    |suffix| <= |s| && s[|s| - |suffix|..] == suffix
  }

  predicate OccursAt(s: string, sub: string, i: int) {
    0 <= i <= |s| - |sub| && s[i..i + |sub|] == sub
  }

  /** `String.prototype.includes`. */
  predicate Contains(s: string, sub: string) {
    exists i :: 0 <= i <= |s| - |sub| && OccursAt(s, sub, i)
  }

  lemma ContainsItself(s: string)
    ensures Contains(s, s) && Contains(s, "")
  {
    assert OccursAt(s, s, 0);
    assert OccursAt(s, "", 0);
  }

  lemma ContainsPrefix(s: string, p: string)
    requires StartsWith(s, p)
    ensures Contains(s, p)
  {
    assert OccursAt(s, p, 0);
  }

  /** `patterns.some(p => s.includes(p))`. */
  function ContainsAny(s: string, patterns: seq<string>): (r: bool)
    ensures r <==> exists i :: 0 <= i < |patterns| && Contains(s, patterns[i])
  {
    if patterns == [] then false
    else
      var rest := ContainsAny(s, patterns[1..]);
      assert rest <==> exists i :: 1 <= i < |patterns| && Contains(s, patterns[i]) by {
        if rest {
          var i :| 0 <= i < |patterns| - 1 && Contains(s, patterns[1..][i]);
          assert Contains(s, patterns[i + 1]);
        }
        if exists i :: 1 <= i < |patterns| && Contains(s, patterns[i]) {
          var i :| 1 <= i < |patterns| && Contains(s, patterns[i]);
          assert patterns[1..][i - 1] == patterns[i];
        }
      }
      Contains(s, patterns[0]) || rest
  }

  /** A string lacking one of the characters of `sub` does not contain it. */
  lemma NotContainsChar(s: string, sub: string, j: int)
    requires 0 <= j < |sub| && sub[j] !in s
    ensures !Contains(s, sub)
  {
  }

  /** Containing a one-character string is containing the character. */
  lemma ContainsChar(s: string, c: char)
    ensures Contains(s, [c]) <==> c in s
  {
    if c in s {
      var i :| 0 <= i < |s| && s[i] == c;
      assert OccursAt(s, [c], i);
    }
    if Contains(s, [c]) {
      var i :| 0 <= i <= |s| - 1 && OccursAt(s, [c], i);
      assert s[i] == s[i..i + 1][0];
    }
  }

  /** The index of the first occurrence of `c`, or `|s|` when there is none. */
  function IndexOf(s: string, c: char): (r: nat)
    ensures r <= |s|
    ensures r < |s| ==> s[r] == c
    ensures forall i :: 0 <= i < r ==> s[i] != c
    ensures r == |s| <==> c !in s
  {
    if s == [] then 0 else if s[0] == c then 0 else 1 + IndexOf(s[1..], c)
  }

  /** `s.replace(c, repl)` with a one-character string pattern: only the
      first occurrence is replaced. */
  function ReplaceFirst(s: string, c: char, repl: string): (r: string)
    ensures c !in s ==> r == s
    ensures c in s ==> r == s[..IndexOf(s, c)] + repl + s[IndexOf(s, c) + 1..]
  {
    var i := IndexOf(s, c);
    if i == |s| then s else s[..i] + repl + s[i + 1..]
  }

  function Join(parts: seq<string>, sep: string): (r: string)
  {
    if parts == [] then ""
    else if |parts| == 1 then parts[0]
    else parts[0] + sep + Join(parts[1..], sep)
  }

  /** `s.split(c)` with a one-character separator. */
  function Split(s: string, c: char): (r: seq<string>)
    ensures |r| >= 1
    ensures forall i :: 0 <= i < |r| ==> c !in r[i]
    ensures Join(r, [c]) == s
    decreases |s|
  {
    var i := IndexOf(s, c);
    if i == |s| then [s]
    else
      var rest := Split(s[i + 1..], c);
      assert s == s[..i] + [c] + s[i + 1..];
      [s[..i]] + rest
  }

  function DigitChar(d: nat): (c: char)
    requires d < 16
  {
    "0123456789abcdef"[d]
  }

  /** The decimal rendering of a natural number (`String(n)`). */
  function NatToString(n: nat): (r: string)
    ensures |r| >= 1
    ensures forall i :: 0 <= i < |r| ==> '0' <= r[i] <= '9'
    ensures n > 0 ==> r[0] != '0'
  {
    if n < 10 then [DigitChar(n)] else NatToString(n / 10) + [DigitChar(n % 10)]
  }

  /** The value of `c` as a digit in base `radix` (2..36), like `parseInt`
      reads it: decimal digits, then Latin letters in either case. */
  function DigitValue(c: char, radix: nat): (r: Option<nat>)
    ensures r.Some? ==> r.value < radix
  {
    var v :=
      if '0' <= c <= '9' then c as int - '0' as int
      else if 'a' <= c <= 'z' then c as int - 'a' as int + 10
      else if 'A' <= c <= 'Z' then c as int - 'A' as int + 10
      else 36;
    if v < radix then Some(v) else None
  }

  /** The length of the longest prefix of `s` made of base-`radix` digits. */
  function DigitRun(s: string, radix: nat): (r: nat)
    ensures r <= |s|
    ensures forall i :: 0 <= i < r ==> DigitValue(s[i], radix).Some?
    ensures r < |s| ==> DigitValue(s[r], radix).None?
  {
    if s == [] || DigitValue(s[0], radix).None? then 0 else 1 + DigitRun(s[1..], radix)
  }

  predicate IsDigits(s: string, radix: nat) {
    forall i :: 0 <= i < |s| ==> DigitValue(s[i], radix).Some?
  }

  /** The value of a string of base-`radix` digits, most significant first. */
  function DigitsValue(s: string, radix: nat): nat
    requires IsDigits(s, radix)
  {
    if s == [] then 0
    else
      var init := s[..|s| - 1];
      assert IsDigits(init, radix) by {
        forall i | 0 <= i < |init| ensures DigitValue(init[i], radix).Some? {
          assert init[i] == s[i];
        }
      }
      var high: nat := DigitsValue(init, radix);
      var low: nat := DigitValue(s[|s| - 1], radix).value;
      high * radix + low
  }

  /** The value of the longest prefix of `s` made of base-`radix` digits. */
  function LeadingDigitsValue(s: string, radix: nat): nat
  {
    var n := DigitRun(s, radix);
    var d := s[..n];
    assert IsDigits(d, radix) by {
      forall i | 0 <= i < |d| ensures DigitValue(d[i], radix).Some? {
        assert d[i] == s[i];
      }
    }
    DigitsValue(d, radix)
  }

  /** `parseInt(s, radix)` for radix 10 and 16 on integral input: leading
      white space is skipped, one sign is read, in base 16 a `0x`/`0X`
      prefix is skipped, and the longest run of digits is read; `None`
      stands for `NaN` (no digit at all). */
  function ParseInt(s: string, radix: nat): (r: Option<int>)
    requires radix == 10 || radix == 16
  {
    var t := TrimStart(s);
    var neg := |t| > 0 && t[0] == '-';
    var u := if |t| > 0 && (t[0] == '-' || t[0] == '+') then t[1..] else t;
    var w := if radix == 16 && |u| >= 2 && u[0] == '0' && (u[1] == 'x' || u[1] == 'X') then u[2..] else u;
    if DigitRun(w, radix) == 0 then None
    else
      var v: int := LeadingDigitsValue(w, radix);
      var x: int := if neg then -v else v;
      Some(x)
  }

  /** The value filed under the first key of `table` that `text` contains:
      the `for (const [key, value] of Object.entries(map)) if
      (text.includes(key)) return value` lookups. */
  function FirstContained(table: seq<(string, string)>, text: string): (r: Option<string>)
    ensures r.Some? ==> exists i :: 0 <= i < |table| && FirstContainedAt(table, text, i) && table[i].1 == r.value
    ensures r.None? <==> forall i :: 0 <= i < |table| ==> !Contains(text, table[i].0)
  {
    if table == [] then None
    else if Contains(text, table[0].0) then
      assert FirstContainedAt(table, text, 0);
      Some(table[0].1)
    else
      var r := FirstContained(table[1..], text);
      assert r.Some? ==> exists i :: 0 <= i < |table| && FirstContainedAt(table, text, i) && table[i].1 == r.value by {
        if r.Some? {
          var i :| 0 <= i < |table| - 1 && FirstContainedAt(table[1..], text, i) && table[1..][i].1 == r.value;
          assert FirstContainedAt(table, text, i + 1);
        }
      }
      assert r.None? ==> forall i :: 0 <= i < |table| ==> !Contains(text, table[i].0) by {
        if r.None? {
          forall i | 0 <= i < |table| ensures !Contains(text, table[i].0) {
            if i > 0 { assert table[i] == table[1..][i - 1]; }
          }
        }
      }
      r
  }

  /** Entry `i` of `table` is the first whose key `text` contains. */
  predicate FirstContainedAt(table: seq<(string, string)>, text: string, i: int) {
    0 <= i < |table| && Contains(text, table[i].0)
    && forall j :: 0 <= j < i ==> !Contains(text, table[j].0)
  }

  /** The first entry whose key `text` contains is unique. */
  lemma FirstContainedAtUnique(table: seq<(string, string)>, text: string, i: int, j: int)
    requires FirstContainedAt(table, text, i) && FirstContainedAt(table, text, j)
    ensures i == j
  {
  }

  /** The lookup returns the value of the first entry whose key `text`
      contains. */
  lemma FirstContainedIs(table: seq<(string, string)>, text: string, i: int)
    requires FirstContainedAt(table, text, i)
    ensures FirstContained(table, text) == Some(table[i].1)
  {
    var r := FirstContained(table, text);
    var j :| 0 <= j < |table| && FirstContainedAt(table, text, j) && table[j].1 == r.value;
    FirstContainedAtUnique(table, text, i, j);
  }

  /** The value filed under `key` itself, if any (the first such entry). */
  function ExactLookup(table: seq<(string, string)>, key: string): (r: Option<string>)
    ensures r.Some? ==> exists i :: 0 <= i < |table| && table[i] == (key, r.value)
    ensures r.None? <==> forall i :: 0 <= i < |table| ==> table[i].0 != key
  {
    if table == [] then None
    else if table[0].0 == key then Some(table[0].1)
    else
      var r := ExactLookup(table[1..], key);
      assert r.Some? ==> exists i :: 0 <= i < |table| && table[i] == (key, r.value) by {
        if r.Some? {
          var i :| 0 <= i < |table| - 1 && table[1..][i] == (key, r.value);
          assert table[i + 1] == (key, r.value);
        }
      }
      r
  }

  function Pow10(k: nat): (r: nat)
    ensures r >= 1
  {
    if k == 0 then 1 else 10 * Pow10(k - 1)
  }

  /** A number written in decimal: `mantissa / 10^scale`. */
  datatype Decimal = Decimal(mantissa: int, scale: nat)

  /** The order of the numbers two decimals denote. */
  function CompareDecimal(a: Decimal, b: Decimal): (r: int)
    ensures r in {-1, 0, 1}
  {
    var x := a.mantissa * Pow10(b.scale);
    var y := b.mantissa * Pow10(a.scale);
    if x < y then -1 else if x > y then 1 else 0
  }

  lemma CompareDecimalAntisymmetric(a: Decimal, b: Decimal)
    ensures CompareDecimal(a, b) == -CompareDecimal(b, a)
  {
  }

  /** The shape of a decimal literal at the start of `w`: digits, then
      optionally a point and more digits; `(n1, n2)` counts both runs and
      `len` is the length of the literal. */
  function DecimalRuns(w: string): (r: (nat, nat, nat))
    ensures r.0 <= r.2 <= |w|
    ensures r.2 == (if r.2 > r.0 then r.0 + 1 + r.1 else r.0)
  {
    var n1 := DigitRun(w, 10);
    if n1 < |w| && w[n1] == '.' then
      var n2 := DigitRun(w[n1 + 1..], 10);
      (n1, n2, n1 + 1 + n2)
    else (n1, 0, n1)
  }

  /** The value of the literal `DecimalRuns` found, when it has a digit. */
  function DecimalAt(w: string, neg: bool): (r: Option<Decimal>)
  {
    var (n1, n2, len) := DecimalRuns(w);
    if n1 + n2 == 0 then None
    else
      var intPart := LeadingDigitsValue(w, 10);
      var frac := if len > n1 then LeadingDigitsValue(w[n1 + 1..], 10) else 0;
      var m: int := intPart * Pow10(n2) + frac;
      Some(Decimal(if neg then -m else m, n2))
  }

  /** The text after an optional sign, and whether the sign was a minus. */
  function Unsigned(t: string): (string, bool) {
    if |t| > 0 && (t[0] == '-' || t[0] == '+') then (t[1..], t[0] == '-') else (t, false)
  }

  /** `parseFloat(s)` on decimal input: leading white space is skipped and
      the longest decimal prefix is read; `None` is `NaN`.  Exponents and
      `Infinity` are not modelled. */
  function ParseFloat(s: string): (r: Option<Decimal>)
  {
    var (w, neg) := Unsigned(TrimStart(s));
    DecimalAt(w, neg)
  }

  /** `Number(s)` on decimal input: the whole string, white space aside,
      must be the literal; the empty string is 0. */
  function StringToNumber(s: string): (r: Option<Decimal>)
  {
    var t := Trim(s);
    if t == "" then Some(Decimal(0, 0))
    else
      var (w, neg) := Unsigned(t);
      if DecimalRuns(w).2 == |w| then DecimalAt(w, neg) else None
  }

  lemma {:induction false} DigitRunOfNumeral(s: string)
    requires forall i :: 0 <= i < |s| ==> '0' <= s[i] <= '9'
    ensures DigitRun(s, 10) == |s|
  {
    if s != [] {
      DigitRunOfNumeral(s[1..]);
    }
  }

  lemma DigitCharValue(d: nat)
    requires d < 10
    ensures DigitValue(DigitChar(d), 10) == Some(d)
  {
    var c := DigitChar(d);
    assert c == ['0', '1', '2', '3', '4', '5', '6', '7', '8', '9'][d];
    assert c as int == '0' as int + d by {
      if d < 5 {
        assert d == 0 || d == 1 || d == 2 || d == 3 || d == 4;
      } else {
        assert d == 5 || d == 6 || d == 7 || d == 8 || d == 9;
      }
    }
  }

  lemma {:induction false} DigitsValueOfNatToString(n: nat)
    ensures DigitsValue(NatToString(n), 10) == n
  {
    var s := NatToString(n);
    if n < 10 {
      DigitCharValue(n);
      assert s == [DigitChar(n)];
      assert s[..0] == [];
    } else {
      assert s == NatToString(n / 10) + [DigitChar(n % 10)];
      assert s[..|s| - 1] == NatToString(n / 10);
      assert s[|s| - 1] == DigitChar(n % 10);
      DigitCharValue(n % 10);
      DigitsValueOfNatToString(n / 10);
    }
  }

  /** The literal at the start of a numeral followed by something else. */
  lemma DecimalAtNumeral(n: nat, rest: string)
    requires rest == [] || !('0' <= rest[0] <= '9' || rest[0] == '.')
    ensures DecimalRuns(NatToString(n) + rest) == (|NatToString(n)|, 0, |NatToString(n)|)
    ensures DecimalAt(NatToString(n) + rest, false) == Some(Decimal(n, 0))
  {
    var s := NatToString(n);
    var w := s + rest;
    DigitRunPrefix(s, rest);
    DigitsValueOfNatToString(n);
    assert w[..|s|] == s;
  }

  lemma UnsignedDigitFirst(w: string)
    requires |w| > 0 && '0' <= w[0] <= '9'
    ensures TrimStart(w) == w
    ensures Unsigned(w) == (w, false)
  {
    assert !IsSpace(w[0]);
    assert w[0] != '-' && w[0] != '+';
  }

  lemma UnsignedNumeral(n: nat, rest: string)
    ensures TrimStart(NatToString(n) + rest) == NatToString(n) + rest
    ensures Unsigned(NatToString(n) + rest) == (NatToString(n) + rest, false)
  {
    var s := NatToString(n);
    var w := s + rest;
    assert w[0] == s[0];
    UnsignedDigitFirst(w);
  }

  /** `Number(String(n))` gives back `n`. */
  lemma NumberOfNumeral(n: nat)
    ensures StringToNumber(NatToString(n)) == Some(Decimal(n, 0))
  {
    var s := NatToString(n);
    NumeralTrimmed(n);
    assert s + [] == s;
    DecimalAtNumeral(n, []);
    UnsignedNumeral(n, []);
    assert Unsigned(Trim(s)) == (s, false);
    assert DecimalRuns(s).2 == |s|;
    assert DecimalAt(s, false) == Some(Decimal(n, 0));
  }

  lemma NumeralTrimmed(n: nat)
    ensures Trim(NatToString(n)) == NatToString(n)
  {
    var s := NatToString(n);
    assert !IsSpace(s[0]) && !IsSpace(s[|s| - 1]);
    TrimOfTrimmed(s);
  }

  /** `parseFloat` reads a prefix: text after the literal does not matter
      (with `rest == []`, `parseFloat(String(n))` gives back `n`). */
  lemma ParseFloatReadsPrefix(n: nat, rest: string)
    requires rest == [] || !('0' <= rest[0] <= '9' || rest[0] == '.')
    ensures ParseFloat(NatToString(n) + rest) == Some(Decimal(n, 0))
  {
    DecimalAtNumeral(n, rest);
    UnsignedNumeral(n, rest);
  }

  lemma {:induction false} DigitRunPrefix(s: string, rest: string)
    requires forall i :: 0 <= i < |s| ==> '0' <= s[i] <= '9'
    requires rest == [] || !('0' <= rest[0] <= '9')
    ensures DigitRun(s + rest, 10) == |s|
  {
    if s == [] {
      assert s + rest == rest;
    } else {
      assert (s + rest)[1..] == s[1..] + rest;
      DigitRunPrefix(s[1..], rest);
    }
  }
}
