/** `formatLastUsed`, which both popups (popup/popup.js and
    horizon-1c-extension/popup/popup.js) define identically: how long ago
    the extension was last used on a 1C page, in four time buckets. */
module LastUsed {
  import opened JsText
  import opened Json

  const Minute: int := 60000
  const Hour: int := 3600000
  const Day: int := 86400000

  /** The five texts `formatLastUsed` can produce. */
  datatype Ago = Never | JustNow | Minutes(n: nat) | Hours(n: nat) | OnDate

  /** The text chosen for the stored `lastUsed` value.  `stamp` is the time
      value of `new Date(lastUsed)`, `None` for an invalid date (whose
      difference is `NaN`, so that every comparison fails); `now` is that of
      `new Date()`, in milliseconds. */
  function Bucket(lastUsed: Json, stamp: Option<int>, now: int): (a: Ago)
    ensures a == Never <==> !Truthy(lastUsed)
    ensures Truthy(lastUsed) && stamp.None? ==> a == OnDate
    ensures Truthy(lastUsed) && stamp.Some? ==>
      var diff := now - stamp.value;
      && (a == JustNow <==> diff < Minute)
      && (a.Minutes? ==> 1 <= a.n < 60 && a.n * Minute <= diff < (a.n + 1) * Minute)
      && (a.Hours? ==> 1 <= a.n < 24 && a.n * Hour <= diff < (a.n + 1) * Hour)
      && (a == OnDate <==> diff >= Day)
  {
    if !Truthy(lastUsed) then Never
    else if stamp.None? then OnDate
    else
      var diff := now - stamp.value;
      if diff < Minute then JustNow
      else if diff < Hour then Minutes(diff / Minute)
      else if diff < Day then Hours(diff / Hour)
      else OnDate
  }

  /** The text of a bucket; `dateText` is what `toLocaleDateString('ru-RU')`
      gives for the stored date. */
  function Render(a: Ago, dateText: string): (r: string)
  {
    match a
    case Never => "Никогда"
    case JustNow => "Только что"
    case Minutes(n) => NatToString(n) + " мин назад"
    case Hours(n) => NatToString(n) + " ч назад"
    case OnDate => dateText
  }

  /** `formatLastUsed`. */
  function FormatLastUsed(lastUsed: Json, stamp: Option<int>, now: int, dateText: string): (r: string)
    ensures !Truthy(lastUsed) ==> r == "Никогда"
  {
    Render(Bucket(lastUsed, stamp, now), dateText)
  }

  /** The position of a bucket on the time line. */
  function Rank(a: Ago): nat {
    match a
    case Never => 0
    case JustNow => 0
    case Minutes(n) => n
    case Hours(n) => 60 + n
    case OnDate => 100
  }

  /** As time passes the text only moves forward: from just now through the
      minutes and hours to the date. */
  lemma BucketMonotone(lastUsed: Json, stamp: Option<int>, now1: int, now2: int)
    requires now1 <= now2
    ensures Rank(Bucket(lastUsed, stamp, now1)) <= Rank(Bucket(lastUsed, stamp, now2))
  {
    if Truthy(lastUsed) && stamp.Some? {
      var d1, d2 := now1 - stamp.value, now2 - stamp.value;
      if Minute <= d1 < Hour && Minute <= d2 < Hour {
        assert d1 / Minute <= d2 / Minute;
      } else if Hour <= d1 < Day && Hour <= d2 < Day {
        assert d1 / Hour <= d2 / Hour;
      }
    }
  }

  /** The character at position `i` of a concatenation. */
  lemma ConcatAt(a: string, s: string, i: int)
    ensures 0 <= i < |a| ==> (a + s)[i] == a[i]
    ensures |a| <= i < |a| + |s| ==> (a + s)[i] == s[i - |a|]
  {
  }

  /** A numeral followed by a text starting with a space splits only one
      way. */
  lemma NumeralSplit(n: nat, m: nat, s: string, t: string)
    requires |s| > 0 && |t| > 0 && s[0] == ' ' && t[0] == ' '
    requires NatToString(n) + s == NatToString(m) + t
    ensures n == m && s == t
  {
    var a, b := NatToString(n), NatToString(m);
    NatToStringCanonical(n);
    NatToStringCanonical(m);
    if |a| < |b| {
      ConcatAt(a, s, |a|);
      ConcatAt(b, t, |a|);
      assert false;
    } else if |b| < |a| {
      ConcatAt(a, s, |b|);
      ConcatAt(b, t, |b|);
      assert false;
    }
    assert a == (a + s)[..|a|] == (b + t)[..|b|] == b;
    NatToStringInjective(n, m);
    assert s == (a + s)[|a|..] == (b + t)[|b|..] == t;
  }

  /** Different buckets other than the date always read differently. */
  lemma RenderDistinct(a: Ago, b: Ago, dateText: string)
    requires a != OnDate && b != OnDate && a != b
    ensures Render(a, dateText) != Render(b, dateText)
  {
    var ra, rb := Render(a, dateText), Render(b, dateText);
    if (a.Minutes? || a.Hours?) && (b.Minutes? || b.Hours?) {
      var sa := if a.Minutes? then " мин назад" else " ч назад";
      var sb := if b.Minutes? then " мин назад" else " ч назад";
      assert " мин назад"[1] != " ч назад"[1];
      if ra == rb {
        NumeralSplit(a.n, b.n, sa, sb);
        assert false;
      }
    } else if a.Minutes? || a.Hours? {
      NatToStringCanonical(a.n);
      assert '0' <= ra[0] <= '9';
      assert rb[0] == 'Н' || rb[0] == 'Т';
    } else if b.Minutes? || b.Hours? {
      NatToStringCanonical(b.n);
      assert '0' <= rb[0] <= '9';
      assert ra[0] == 'Н' || ra[0] == 'Т';
    } else {
      assert ra[0] != rb[0];
    }
  }
}
