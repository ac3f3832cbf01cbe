/** The welcome page (horizon-1c-extension/welcome/welcome.js): colour
    arithmetic on `#rrggbb` strings and the three choices the page stores in
    the synced settings. */
module Welcome {
  import opened JsText
  import opened Json
  import opened Dom

  // ------------------------------------------------ 32-bit integer operators

  const TwoTo31: int := 0x8000_0000
  const TwoTo32: int := 0x1_0000_0000

  /** ToInt32 on an integral number: wrap-around into [-2^31, 2^31). */
  function Int32(x: int): (r: int)
    ensures -TwoTo31 <= r < TwoTo31
    ensures -TwoTo31 <= x < TwoTo31 ==> r == x
  {
    (x + TwoTo31) % TwoTo32 - TwoTo31
  }

  /** 2^n for the shift amounts the page uses. */
  function ShiftFactor(n: nat): (r: nat)
    requires n == 8 || n == 16 || n == 24
    ensures r == if n == 8 then 0x100 else if n == 16 then 0x1_0000 else 0x100_0000
  {
    if n == 8 then 0x100 else if n == 16 then 0x1_0000 else 0x100_0000
  }

  /** `x << n`: the 32-bit product, wrapped. */
  function ShiftLeft(x: int, n: nat): int
    requires n == 8 || n == 16 || n == 24
  {
    Int32(Int32(x) * ShiftFactor(n))
  }

  /** `x >> n` (sign-propagating): floor division of the 32-bit value. */
  function ShiftRight(x: int, n: nat): int
    requires n == 8 || n == 16 || n == 24
  {
    Int32(x) / ShiftFactor(n)
  }

  /** `x & 0xFF` and `x & 0x0000FF`: the low eight bits of the 32-bit value. */
  function LowByte(x: int): (r: int)
    ensures 0 <= r < 256
  {
    Int32(x) % 256
  }

  // ------------------------------------------------ hexadecimal text

  /** `n.toString(16)` for a natural number. */
  function HexString(n: nat): (r: string)
    ensures |r| >= 1
  {
    if n < 16 then [DigitChar(n)] else HexString(n / 16) + [DigitChar(n % 16)]
  }

  /** `n.toString(16)` for an integer: a minus sign before a negative one. */
  function NumberToHex(n: int): (r: string)
    ensures |r| >= 1
  {
    if n < 0 then "-" + HexString(-n) else HexString(n)
  }

  /** The last `k` hexadecimal digits of `v`, with leading zeros. */
  function Padded(v: nat, k: nat): (r: string)
    ensures |r| == k
  {
    if k == 0 then [] else Padded(v / 16, k - 1) + [DigitChar(v % 16)]
  }

  /** The two lowercase digits of a channel value. */
  function Pair(x: nat): (r: string)
    requires x < 256
    ensures |r| == 2
  {
    [DigitChar(x / 16), DigitChar(x % 16)]
  }

  lemma HexCharValue(d: nat)
    requires d < 16
    ensures DigitValue(DigitChar(d), 16) == Some(d)
  {
    var c := DigitChar(d);
    assert c == "0123456789abcdef"[d];
    if d < 10 {
      assert c as int == '0' as int + d by {
        if d < 5 {
          assert d == 0 || d == 1 || d == 2 || d == 3 || d == 4;
        } else {
          assert d == 5 || d == 6 || d == 7 || d == 8 || d == 9;
        }
      }
    } else {
      assert c as int == 'a' as int + d - 10 by {
        assert d == 10 || d == 11 || d == 12 || d == 13 || d == 14 || d == 15;
      }
    }
  }

  lemma {:induction false} HexOfPowerPlus(v: nat, k: nat, p: nat)
    requires p == Pow16(k) && v < p
    ensures HexString(p + v) == "1" + Padded(v, k)
    decreases k
  {
    if k == 0 {
      assert v == 0;
      assert HexString(1) == [DigitChar(1)];
    } else {
      var q := Pow16(k - 1);
      var w, c := v / 16, v % 16;
      assert v == 16 * w + c;
      assert p + v == 16 * (q + w) + c;
      DivMod16(q + w, c);
      HexOfPowerPlus(w, k - 1, q);
      assert HexString(p + v) == HexString(q + w) + [DigitChar(c)];
    }
  }

  function Pow16(k: nat): (r: nat)
    ensures r >= 1
  {
    if k == 0 then 1 else 16 * Pow16(k - 1)
  }

  lemma DivMod16(q: nat, c: nat)
    requires c < 16
    ensures (16 * q + c) / 16 == q && (16 * q + c) % 16 == c
  {
  }

  /** A further digit at the end is the remainder by 16. */
  lemma PaddedDigit(q: nat, c: nat, k: nat, v: nat)
    requires c < 16 && v == 16 * q + c
    ensures Padded(v, k + 1) == Padded(q, k) + [DigitChar(c)]
  {
    DivMod16(q, c);
  }

  /** Two more digits at the end are the low byte. */
  lemma PaddedByte(a: nat, b: nat, k: nat, v: nat)
    requires b < 256 && v == a * 256 + b
    ensures Padded(v, k + 2) == Padded(a, k) + Pair(b)
  {
    var hi, lo := b / 16, b % 16;
    var w := 16 * a + hi;
    PaddedDigit(w, lo, k + 1, v);
    PaddedDigit(a, hi, k, w);
  }

  /** Six digits of a channel triple are the three channels' pairs. */
  lemma PaddedChannels(r: nat, g: nat, b: nat, v: nat)
    requires r < 256 && g < 256 && b < 256 && v == r * 0x10000 + g * 0x100 + b
    ensures Padded(v, 6) == Pair(r) + Pair(g) + Pair(b)
  {
    var rg := r * 256 + g;
    PaddedByte(rg, b, 4, v);
    PaddedByte(r, g, 2, rg);
    PaddedByte(0, r, 0, r);
    assert Padded(0, 0) == [];
  }

  lemma PairValue(x: nat)
    requires x < 256
    ensures IsDigits(Pair(x), 16) && DigitsValue(Pair(x), 16) == x
  {
    HexCharValue(x / 16);
    HexCharValue(x % 16);
    var p := Pair(x);
    assert p[..1] == [DigitChar(x / 16)];
    assert p[..1][..0] == [];
  }

  // ------------------------------------------------ colours

  datatype Rgb = Rgb(r: int, g: int, b: int)

  predicate InRange(c: Rgb) {
    0 <= c.r < 256 && 0 <= c.g < 256 && 0 <= c.b < 256
  }

  /** The digits after an optional leading '#'. */
  function HexBody(hex: string): string {
    if |hex| > 0 && hex[0] == '#' then hex[1..] else hex
  }

  /** Whether `/^#?([a-f\d]{2})([a-f\d]{2})([a-f\d]{2})$/i` matches: a
      leading '#' cannot be one of the digits, so it belongs to `#?`. */
  predicate IsHexColor(hex: string) {
    var d := HexBody(hex);
    |d| == 6 && IsDigits(d, 16)
  }

  /** `hexToRgb`: the three two-digit groups read in base 16, or `null`
      for any other string. */
  function HexToRgb(hex: string): (c: Option<Rgb>)
    ensures c.Some? <==> IsHexColor(hex)
    ensures c.Some? ==> InRange(c.value)
  {
    if IsHexColor(hex) then
      var d := HexBody(hex);
      Some(Rgb(GroupValue(d, 0), GroupValue(d, 2), GroupValue(d, 4)))
    else None
  }

  /** The value of the two digits of `d` at `i`. */
  function GroupValue(d: string, i: nat): (v: nat)
    requires i + 2 <= |d| && IsDigits(d, 16)
    ensures v < 256
  {
    var g := d[i..i + 2];
    assert IsDigits(g, 16) by {
      assert g[0] == d[i] && g[1] == d[i + 1];
    }
    assert g[..1] == [g[0]] && g[..1][..0] == [];
    var first := g[..1];
    assert first[..0] == [] && first[0] == g[0];
    var high: nat := DigitsValue(first, 16);
    assert high == DigitsValue(first[..0], 16) * 16 + DigitValue(g[0], 16).value;
    assert DigitsValue(g, 16) == high * 16 + DigitValue(g[1], 16).value;
    DigitsValue(g, 16)
  }

  /** `rgbToHex`: `((1 << 24) + (r << 16) + (g << 8) + b).toString(16)`
      without its first character, with the 32-bit shifts written out. */
  function RgbToHex(r: int, g: int, b: int): (hex: string)
    ensures |hex| >= 1 && hex[0] == '#'
    ensures 0 <= r < 256 && 0 <= g < 256 && 0 <= b < 256 ==> |hex| == 7
  {
    if 0 <= r < 256 && 0 <= g < 256 && 0 <= b < 256 then
      assert ShiftLeft(1, 24) == 0x100_0000;
      assert ShiftLeft(r, 16) == r * 0x10000;
      assert ShiftLeft(g, 8) == g * 0x100;
      ChannelsHexDigits(Rgb(r, g, b));
      HexTail(ShiftLeft(1, 24) + ShiftLeft(r, 16) + ShiftLeft(g, 8) + b)
    else
      HexTail(ShiftLeft(1, 24) + ShiftLeft(r, 16) + ShiftLeft(g, 8) + b)
  }

  /** `"#" + n.toString(16).slice(1)`. */
  function HexTail(n: int): string {
    "#" + NumberToHex(n)[1..]
  }

  /** The `"#" + (0x1000000 + R * 0x10000 + G * 0x100 + B).toString(16).slice(1)`
      that `adjustColorBrightness` ends with. */
  function ChannelsHex(c: Rgb): string {
    HexTail(0x100_0000 + c.r * 0x10000 + c.g * 0x100 + c.b)
  }

  /** Three channels packed into one number stay below 2^24. */
  lemma ChannelsBelow(r: nat, g: nat, b: nat)
    requires r < 256 && g < 256 && b < 256
    ensures r * 0x10000 + g * 0x100 + b < 0x100_0000
  {
  }

  /** Past the leading 1 of 2^24 + v come the six digits of v. */
  lemma HexTailOfPacked(v: nat, digits: string)
    requires v < 0x100_0000 && Padded(v, 6) == digits
    ensures HexTail(0x100_0000 + v) == "#" + digits
  {
    assert Pow16(6) == 0x100_0000;
    HexOfPowerPlus(v, 6, Pow16(6));
    var text := NumberToHex(0x100_0000 + v);
    assert text == "1" + digits;
    assert text[1..] == digits;
  }

  /** So the tail `adjustColorBrightness` builds is '#' and two digits per
      channel. */
  lemma ChannelsHexDigits(c: Rgb)
    requires InRange(c)
    ensures ChannelsHex(c) == "#" + Pair(c.r) + Pair(c.g) + Pair(c.b)
  {
    var v := c.r * 0x10000 + c.g * 0x100 + c.b;
    ChannelsBelow(c.r, c.g, c.b);
    PaddedChannels(c.r, c.g, c.b, v);
    HexTailOfPacked(v, Pair(c.r) + Pair(c.g) + Pair(c.b));
    assert 0x100_0000 + c.r * 0x10000 + c.g * 0x100 + c.b == 0x100_0000 + v;
  }

  /** For in-range channels the shifts of `rgbToHex` are plain products. */
  lemma RgbToHexValue(r: nat, g: nat, b: nat)
    requires r < 256 && g < 256 && b < 256
    ensures RgbToHex(r, g, b) == ChannelsHex(Rgb(r, g, b))
  {
    assert ShiftLeft(1, 24) == 0x100_0000;
    assert ShiftLeft(r, 16) == r * 0x10000;
    assert ShiftLeft(g, 8) == g * 0x100;
  }

  /** In-range channels give '#' and six lowercase digits, two per channel. */
  lemma RgbToHexShape(r: nat, g: nat, b: nat)
    requires r < 256 && g < 256 && b < 256
    ensures RgbToHex(r, g, b) == "#" + Pair(r) + Pair(g) + Pair(b)
  {
    RgbToHexValue(r, g, b);
    ChannelsHexDigits(Rgb(r, g, b));
  }

  /** '#' and three channel pairs read back as the channels. */
  lemma PairsRead(r: nat, g: nat, b: nat)
    requires r < 256 && g < 256 && b < 256
    ensures HexToRgb("#" + Pair(r) + Pair(g) + Pair(b)) == Some(Rgb(r, g, b))
  {
    var d := Pair(r) + Pair(g) + Pair(b);
    var hex := "#" + Pair(r) + Pair(g) + Pair(b);
    assert hex == "#" + d;
    assert HexBody(hex) == d;
    PairValue(r);
    PairValue(g);
    PairValue(b);
    assert d[0..2] == Pair(r) && d[2..4] == Pair(g) && d[4..6] == Pair(b);
    assert IsDigits(d, 16) by {
      forall i | 0 <= i < 6 ensures DigitValue(d[i], 16).Some? {
        if i < 2 {
          assert d[i] == Pair(r)[i];
        } else if i < 4 {
          assert d[i] == Pair(g)[i - 2];
        } else {
          assert d[i] == Pair(b)[i - 4];
        }
      }
    }
  }

  /** `hexToRgb(rgbToHex(r, g, b))` gives the channels back. */
  lemma HexRoundTrip(c: Rgb)
    requires InRange(c)
    ensures HexToRgb(RgbToHex(c.r, c.g, c.b)) == Some(c)
  {
    RgbToHexShape(c.r, c.g, c.b);
    PairsRead(c.r, c.g, c.b);
  }

  /** `R < 255 ? (R < 1 ? 0 : R) : 255`. */
  function Clamp(x: int): (r: int)
    ensures 0 <= r <= 255
    ensures 0 <= x <= 255 ==> r == x
    ensures x < 0 ==> r == 0
    ensures x > 255 ==> r == 255
  {
    if x < 255 then (if x < 1 then 0 else x) else 255
  }

  /** The colour value `parseInt(hex.replace("#", ""), 16)` reads: `NaN`
      converts to 0 in the shifts and masks. */
  function ColourNumber(hex: string): int {
    var n := ParseInt(ReplaceFirst(hex, '#', ""), 16);
    if n.Some? then n.value else 0
  }

  /** The channels of `adjustColorBrightness`: each of the shifted and
      masked parts of `num`, plus `amt`, clamped to [0, 255]. */
  function Brightened(hex: string, amt: int): (c: Rgb)
    ensures InRange(c)
    ensures var num := ColourNumber(hex);
      && c.r == Clamp(ShiftRight(num, 16) + amt)
      && c.g == Clamp(LowByte(ShiftRight(num, 8)) + amt)
      && c.b == Clamp(LowByte(num) + amt)
  {
    var num := ColourNumber(hex);
    Rgb(Clamp(ShiftRight(num, 16) + amt), Clamp(LowByte(ShiftRight(num, 8)) + amt), Clamp(LowByte(num) + amt))
  }

  /** In-range channels written this way are what `rgbToHex` writes, and
      `hexToRgb` reads them back. */
  lemma ChannelsHexIsColour(c: Rgb)
    requires InRange(c)
    ensures ChannelsHex(c) == RgbToHex(c.r, c.g, c.b)
    ensures |ChannelsHex(c)| == 7
    ensures HexToRgb(ChannelsHex(c)) == Some(c)
  {
    ChannelsHexDigits(c);
    RgbToHexShape(c.r, c.g, c.b);
    PairsRead(c.r, c.g, c.b);
  }

  /** `adjustColorBrightness(hex, percent)` with `amt`, the rounded
      `2.55 * percent`, as the parameter. */
  function AdjustColorBrightness(hex: string, amt: int): (r: string)
    ensures |r| == 7 && r[0] == '#'
  {
    ChannelsHexIsColour(Brightened(hex, amt));
    ChannelsHex(Brightened(hex, amt))
  }

  /** The adjusted colour is the clamped channels in `#rrggbb` form, so it
      is always a colour `hexToRgb` accepts, and it reads back as them. */
  lemma AdjustedIsColour(hex: string, amt: int)
    ensures var c := Brightened(hex, amt);
      && AdjustColorBrightness(hex, amt) == RgbToHex(c.r, c.g, c.b)
      && |AdjustColorBrightness(hex, amt)| == 7
      && HexToRgb(AdjustColorBrightness(hex, amt)) == Some(c)
  {
    ChannelsHexIsColour(Brightened(hex, amt));
  }

  /** Whether `parseInt(hex.replace("#", ""), 16)` is `NaN`. */
  predicate Unreadable(hex: string) {
    ParseInt(ReplaceFirst(hex, '#', ""), 16).None?
  }

  /** "#zz" is such a text. */
  lemma UnreadableExample()
    ensures Unreadable("#zz")
  {
    var t := ReplaceFirst("#zz", '#', "");
    assert t == "zz" by {
      assert IndexOf("#zz", '#') == 0;
    }
    assert TrimStart(t) == t;
    assert DigitValue('z', 16).None?;
    assert DigitRun(t, 16) == 0;
  }

  /** A text `parseInt` cannot read is brightened from black. */
  lemma BrightenedUnreadable(hex: string, amt: int)
    requires Unreadable(hex)
    ensures Brightened(hex, amt) == Rgb(Clamp(amt), Clamp(amt), Clamp(amt))
  {
    assert ColourNumber(hex) == 0;
    assert Int32(0) == 0;
    assert ShiftRight(0, 16) == 0 && ShiftRight(0, 8) == 0 && LowByte(0) == 0;
  }

  /** Brightening or darkening such a text gives the grey of `amt` clamped. */
  lemma AdjustUnreadable(hex: string, amt: int)
    requires Unreadable(hex)
    ensures AdjustColorBrightness(hex, amt) == RgbToHex(Clamp(amt), Clamp(amt), Clamp(amt))
  {
    BrightenedUnreadable(hex, amt);
    ChannelsHexIsColour(Brightened(hex, amt));
  }

  // ------------------------------------------------ notifications

  /** `getNotificationIcon`: the info icon for any type not in the table. */
  function NotificationIcon(kind: string): (icon: string)
    ensures kind !in {"success", "error", "warning"} ==> icon == "ℹ️"
    ensures kind == "success" ==> icon == "✅"
    ensures kind == "error" ==> icon == "❌"
    ensures kind == "warning" ==> icon == "⚠️"
  {
    match kind
    case "success" => "✅"
    case "error" => "❌"
    case "warning" => "⚠️"
    case _ => "ℹ️"
  }

  // ------------------------------------------------ the page

  const SettingsKey := "horizonSettings"
  const PrimaryVar := "--primary-color"
  const SecondaryVar := "--secondary-color"
  /** `Math.round(2.55 * 20)`, the brightening of the secondary colour. */
  const SecondaryAmount := 51

  const InitialSettings: map<string, Json> :=
    map["theme" := JStr("light"), "accentColor" := JStr("#4318FF"), "performance" := JStr("balanced")]

  /** The synced settings after `saveSettings`: the stored settings (`{}`
      when missing or falsy) overlaid with the page's. */
  function Saved(sync: map<string, Json>, settings: map<string, Json>): (r: map<string, Json>)
    ensures SettingsKey in r && r.Keys == sync.Keys + {SettingsKey}
    ensures forall k :: k in sync && k != SettingsKey ==> r[k] == sync[k]
  {
    var current := if SettingsKey in sync && Truthy(sync[SettingsKey]) then sync[SettingsKey] else Empty;
    sync[SettingsKey := Spread(current, JObj(settings))]
  }

  /** Saving keeps every stored setting the page does not know and writes
      every one it does. */
  lemma SavedOverlay(sync: map<string, Json>, settings: map<string, Json>)
    requires SettingsKey in sync && sync[SettingsKey].JObj?
    ensures var s := Saved(sync, settings)[SettingsKey];
      && s.JObj?
      && s.fields.Keys == sync[SettingsKey].fields.Keys + settings.Keys
      && (forall k :: k in settings ==> s.fields[k] == settings[k])
      && (forall k :: k in sync[SettingsKey].fields && k !in settings ==>
            s.fields[k] == sync[SettingsKey].fields[k])
  {
    assert Truthy(sync[SettingsKey]);
  }

  /** Saving twice stores what saving once does. */
  lemma SavedTwice(sync: map<string, Json>, settings: map<string, Json>)
    ensures Saved(Saved(sync, settings), settings) == Saved(sync, settings)
  {
    var once := Saved(sync, settings);
    var s := once[SettingsKey];
    assert Truthy(s);
    assert Spread(s, JObj(settings)) == s;
  }

  /** The option `updateUI` marks: the one whose attribute is strictly
      equal to the setting, when the page has one. */
  function Marked(options: set<string>, v: Json): (r: Option<string>)
    ensures r.Some? <==> v.JStr? && v.s in options
    ensures r.Some? ==> v == JStr(r.value)
  {
    if v.JStr? && v.s in options then Some(v.s) else None
  }

  /** The root custom properties after `applyAccentColor(accent)` in
      `updateUI`: the primary colour takes the accent's text, and the
      secondary colour its brightened form when the accent is a string. */
  function AccentVars(vars: map<string, string>, accent: Json): (r: map<string, string>)
    ensures CssText(accent).Some? ==> PrimaryVar in r && r[PrimaryVar] == CssText(accent).value
    ensures CssText(accent).None? ==>
      (PrimaryVar in r <==> PrimaryVar in vars) && (PrimaryVar in vars ==> r[PrimaryVar] == vars[PrimaryVar])
    ensures accent.JStr? ==> SecondaryVar in r && r[SecondaryVar] == AdjustColorBrightness(accent.s, SecondaryAmount)
    ensures !accent.JStr? ==>
      (SecondaryVar in r <==> SecondaryVar in vars) && (SecondaryVar in vars ==> r[SecondaryVar] == vars[SecondaryVar])
    ensures forall k :: k != PrimaryVar && k != SecondaryVar ==>
      (k in r <==> k in vars) && (k in vars ==> r[k] == vars[k])
  {
    var text := CssText(accent);
    var primed := if text.Some? then vars[PrimaryVar := text.value] else vars;
    if accent.JStr? then primed[SecondaryVar := AdjustColorBrightness(accent.s, SecondaryAmount)] else primed
  }

  /** A string accent loaded from storage sets the same two colours that
      choosing it on the page does. */
  lemma LoadedAccentAsChosen(vars: map<string, string>, color: string)
    ensures AccentVars(vars, JStr(color)) == vars[PrimaryVar := color][SecondaryVar := AdjustColorBrightness(color, SecondaryAmount)]
  {
  }

  class WelcomePage {
    var settings: map<string, Json>
    var sync: map<string, Json>
    /** The `data-theme`, `data-color` and `value` attributes of the theme,
        colour and performance options on the page. */
    const themeOptions: set<string>
    const colorOptions: set<string>
    const performanceOptions: set<string>
    /** The option carrying the `active` class in each group (for the
        performance group, also the one whose radio button is checked). */
    var activeTheme: Option<string>
    var activeColor: Option<string>
    var activePerformance: Option<string>
    /** The `data-theme` attribute of the document element, absent at first. */
    var dataTheme: Option<string>
    var darkBody: bool
    const page: Page

    constructor(sync0: map<string, Json>, themes: set<string>, colors: set<string>, modes: set<string>, page: Page)
      ensures settings == InitialSettings && sync == sync0
      ensures themeOptions == themes && colorOptions == colors && performanceOptions == modes
      ensures activeTheme.None? && activeColor.None? && activePerformance.None? && dataTheme.None?
      ensures this.page == page
    {
      settings := InitialSettings;
      sync := sync0;
      themeOptions := themes;
      colorOptions := colors;
      performanceOptions := modes;
      activeTheme := None;
      activeColor := None;
      activePerformance := None;
      dataTheme := None;
      darkBody := false;
      this.page := page;
    }

    /** `loadCurrentSettings`: truthy stored settings are spread over the
        page's and `updateUI` runs.  It marks the option of each group that
        equals its setting and applies the accent colour: the primary colour
        is written, and the secondary one only for a string accent, since
        `adjustColorBrightness` throws on any other value (the throw is
        caught and logged). */
    method LoadCurrentSettings()
      modifies this, page
      ensures var stored := if SettingsKey in sync then sync[SettingsKey] else JUndefined;
        !Truthy(stored) ==>
          settings == old(settings) && activeTheme == old(activeTheme) && activeColor == old(activeColor)
          && activePerformance == old(activePerformance) && page.rootVars == old(page.rootVars)
      ensures var stored := if SettingsKey in sync then sync[SettingsKey] else JUndefined;
        Truthy(stored) ==>
          settings == Spread(JObj(old(settings)), stored).fields
          && activeTheme == Marked(themeOptions, Member(JObj(settings), "theme"))
          && activeColor == Marked(colorOptions, Member(JObj(settings), "accentColor"))
          && activePerformance == Marked(performanceOptions, Member(JObj(settings), "performance"))
          && page.rootVars == AccentVars(old(page.rootVars), Member(JObj(settings), "accentColor"))
      ensures sync == old(sync) && dataTheme == old(dataTheme) && darkBody == old(darkBody)
      ensures page.rootClasses == old(page.rootClasses) && page.styleIds == old(page.styleIds)
    {
      var stored := if SettingsKey in sync then sync[SettingsKey] else JUndefined;
      if Truthy(stored) {
        settings := Spread(JObj(settings), stored).fields;
        UpdateUI();
      }
    }

    /** `updateUI`. */
    method UpdateUI()
      modifies this, page
      ensures activeTheme == Marked(themeOptions, Member(JObj(settings), "theme"))
      ensures activeColor == Marked(colorOptions, Member(JObj(settings), "accentColor"))
      ensures activePerformance == Marked(performanceOptions, Member(JObj(settings), "performance"))
      ensures page.rootVars == AccentVars(old(page.rootVars), Member(JObj(settings), "accentColor"))
      ensures settings == old(settings) && sync == old(sync) && dataTheme == old(dataTheme) && darkBody == old(darkBody)
      ensures page.rootClasses == old(page.rootClasses) && page.styleIds == old(page.styleIds)
    {
      var s := JObj(settings);
      activeTheme := Marked(themeOptions, Member(s, "theme"));
      activeColor := Marked(colorOptions, Member(s, "accentColor"));
      activePerformance := Marked(performanceOptions, Member(s, "performance"));
      ApplyAccentColor(Member(s, "accentColor"));
    }

    /** `applyAccentColor`, called at the end of `updateUI`: the primary
        variable takes the accent's text, and a string accent also sets the
        secondary one. */
    method ApplyAccentColor(accent: Json)
      modifies page
      ensures page.rootVars == AccentVars(old(page.rootVars), accent)
      ensures page.rootClasses == old(page.rootClasses) && page.styleIds == old(page.styleIds)
    {
      var text := CssText(accent);
      if text.Some? {
        page.SetRootVar(PrimaryVar, text.value);
      }
      if accent.JStr? {
        page.SetRootVar(SecondaryVar, AdjustColorBrightness(accent.s, SecondaryAmount));
      }
    }

    method SaveSettings()
      modifies this
      ensures sync == Saved(old(sync), settings)
      ensures settings == old(settings) && activeTheme == old(activeTheme)
      ensures activeColor == old(activeColor) && activePerformance == old(activePerformance)
      ensures dataTheme == old(dataTheme) && darkBody == old(darkBody)
    {
      sync := Saved(sync, settings);
    }

    /** `selectTheme`: every theme option is unmarked, then the first
        element with that `data-theme` is marked.  Once a theme has been
        applied that element is the document element itself, so selecting
        the applied theme again marks `<html>` and no option.  Then the
        theme is stored, applied and saved.  When no element has the
        attribute the lookup throws, after the options were unmarked. */
    method SelectTheme(theme: string) returns (ok: bool)
      modifies this, page
      ensures ok <==> old(dataTheme) == Some(theme) || theme in themeOptions
      ensures old(dataTheme) == Some(theme) ==>
        activeTheme.None? && page.rootClasses == old(page.rootClasses) + {"active"}
      ensures old(dataTheme) != Some(theme) ==>
        activeTheme == (if ok then Some(theme) else None) && page.rootClasses == old(page.rootClasses)
      ensures ok ==> (settings == old(settings)["theme" := JStr(theme)]
          && dataTheme == Some(theme) && darkBody == (theme == "dark") && sync == Saved(old(sync), settings))
      ensures !ok ==> (settings == old(settings) && sync == old(sync)
          && dataTheme == old(dataTheme) && darkBody == old(darkBody))
      ensures activeColor == old(activeColor) && activePerformance == old(activePerformance)
      ensures page.rootVars == old(page.rootVars) && page.styleIds == old(page.styleIds)
    {
      activeTheme := None;
      if dataTheme == Some(theme) {
        page.ToggleRootClass("active", true);
      } else if theme in themeOptions {
        activeTheme := Some(theme);
      } else {
        return false;
      }
      settings := settings["theme" := JStr(theme)];
      dataTheme := Some(theme);
      darkBody := theme == "dark";
      SaveSettings();
      ok := true;
    }

    /** `selectColor`: every colour option is unmarked, then the chosen one
        is marked, the accent becomes the primary colour and its brightened
        form the secondary one.  A colour the page has no option for throws
        after the unmarking. */
    method SelectColor(color: string) returns (ok: bool)
      modifies this, page
      ensures ok <==> color in colorOptions
      ensures activeColor == if ok then Some(color) else None
      ensures ok ==> (settings == old(settings)["accentColor" := JStr(color)]
          && sync == Saved(old(sync), settings)
          && page.rootVars == old(page.rootVars)[PrimaryVar := color][SecondaryVar := AdjustColorBrightness(color, SecondaryAmount)])
      ensures !ok ==> (settings == old(settings) && sync == old(sync) && page.rootVars == old(page.rootVars))
      ensures activeTheme == old(activeTheme) && activePerformance == old(activePerformance)
      ensures dataTheme == old(dataTheme) && darkBody == old(darkBody)
      ensures page.rootClasses == old(page.rootClasses) && page.styleIds == old(page.styleIds)
    {
      activeColor := None;
      if color !in colorOptions {
        return false;
      }
      activeColor := Some(color);
      settings := settings["accentColor" := JStr(color)];
      page.SetRootVar(PrimaryVar, color);
      page.SetRootVar(SecondaryVar, AdjustColorBrightness(color, SecondaryAmount));
      SaveSettings();
      ok := true;
    }

    /** `selectPerformance`: every performance option is unmarked, then the
        option around the radio button with that value is marked and the
        mode saved.  A value with no such option throws after the
        unmarking. */
    method SelectPerformance(mode: string) returns (ok: bool)
      modifies this
      ensures ok <==> mode in performanceOptions
      ensures activePerformance == if ok then Some(mode) else None
      ensures ok ==> settings == old(settings)["performance" := JStr(mode)] && sync == Saved(old(sync), settings)
      ensures !ok ==> settings == old(settings) && sync == old(sync)
      ensures activeTheme == old(activeTheme) && activeColor == old(activeColor)
      ensures dataTheme == old(dataTheme) && darkBody == old(darkBody)
    {
      activePerformance := None;
      if mode !in performanceOptions {
        return false;
      }
      activePerformance := Some(mode);
      settings := settings["performance" := JStr(mode)];
      SaveSettings();
      ok := true;
    }
  }
}
