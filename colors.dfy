/** `hex_to_rgb`: parse a `#RRGGBB` colour into three components in `[0, 1]`. */
module Colors {
  import opened Wrappers

  /** Both are ValueErrors in the source: the wrong number of characters after
      the leading `#`s, or a pair that is not base-16. */
  datatype ColorError = WrongLength | NotHexPair

  datatype Rgb = Rgb(red: real, green: real, blue: real)

  /** `s.lstrip(c)`: drop every leading `c`, not just one. */
  function LStrip(s: string, c: char): (r: string)
    ensures |r| <= |s| && r == s[|s| - |r|..]
    ensures forall k :: 0 <= k < |s| - |r| ==> s[k] == c
    ensures r == [] || r[0] != c
  {
    if s != [] && s[0] == c then LStrip(s[1..], c) else s
  }

  predicate IsHexDigit(ch: char) {
    '0' <= ch <= '9' || 'a' <= ch <= 'f' || 'A' <= ch <= 'F'
  }

  /** ASCII lower-casing: `'A'..'Z'` to `'a'..'z'`, every other character kept. */
  function ToLower(ch: char): (c: char)
    ensures 'A' <= ch <= 'Z' ==> 'a' <= c <= 'z' && c as int - 'a' as int == ch as int - 'A' as int
    ensures !('A' <= ch <= 'Z') ==> c == ch
  {
    if 'A' <= ch <= 'Z' then (ch as int - 'A' as int + 'a' as int) as char else ch
  }

  /** The value of one base-16 digit (either case). */
  function HexDigit(ch: char): (d: Option<nat>)
    ensures d.Some? <==> IsHexDigit(ch)
    ensures d.Some? ==> d.value < 16
  {
    if '0' <= ch <= '9' then Some(ch as nat - '0' as nat)
    else if 'a' <= ch <= 'f' then Some(ch as nat - 'a' as nat + 10)
    else if 'A' <= ch <= 'F' then Some(ch as nat - 'A' as nat + 10)
    else None
  }

  /** `int(pair, 16)` for the pair of characters `high`, `low`. */
  function PairValue(high: char, low: char): (v: Option<nat>)
    ensures v.Some? <==> IsHexDigit(high) && IsHexDigit(low)
    ensures v.Some? ==> v.value < 256
  {
    var h, l := HexDigit(high), HexDigit(low);
    if h.Some? && l.Some? then Some(16 * h.value + l.value) else None
  }

  /** A byte as a component: `v / 255.0`, in `[0, 1]`. */
  function Component(v: nat): (x: real)
    requires v < 256
    ensures 0.0 <= x <= 1.0
  {
    v as real / 255.0
  }

  /** Six characters, all base-16 digits. */
  predicate IsHexText(h: string) {
    |h| == 6 && forall k :: 0 <= k < 6 ==> IsHexDigit(h[k])
  }

  /** The three pairs of six characters are all base-16 exactly when every
      character is a base-16 digit. */
  lemma HexTextPairs(h: string)
    requires |h| == 6
    ensures IsHexText(h) <==> PairValue(h[0], h[1]).Some? && PairValue(h[2], h[3]).Some? && PairValue(h[4], h[5]).Some?
  {
    if !IsHexText(h) {
      var k :| 0 <= k < 6 && !IsHexDigit(h[k]);
      assert k == 0 || k == 1 || k == 2 || k == 3 || k == 4 || k == 5;
    }
  }

  /** `tuple(int(h[i:i+2], 16) / 255.0 for i in (0, 2, 4))` for six characters. */
  function ParsePairs(h: string): (r: Result<Rgb, ColorError>)
    requires |h| == 6
    ensures r.Success? <==> IsHexText(h)
    ensures r.Failure? ==> r.error == NotHexPair
    ensures r.Success? ==> 0.0 <= r.value.red <= 1.0 && 0.0 <= r.value.green <= 1.0 && 0.0 <= r.value.blue <= 1.0
  {
    HexTextPairs(h);
    var red, green, blue := PairValue(h[0], h[1]), PairValue(h[2], h[3]), PairValue(h[4], h[5]);
    if red.Some? && green.Some? && blue.Some? then
      Success(Rgb(Component(red.value), Component(green.value), Component(blue.value)))
    else
      Failure(NotHexPair)
  }

  /** `hex_to_rgb(hex_color)`: strip every leading `#`, demand six characters,
      read three base-16 pairs and divide each by 255, so each component lies
      in `[0, 1]` rather than `[0, 255]`. */
  function HexToRgb(hexColor: string): (r: Result<Rgb, ColorError>)
    ensures r == Failure(WrongLength) <==> |LStrip(hexColor, '#')| != 6
    ensures r == Failure(NotHexPair) <==> |LStrip(hexColor, '#')| == 6 && !IsHexText(LStrip(hexColor, '#'))
    ensures r.Success? <==> IsHexText(LStrip(hexColor, '#'))
    ensures r.Success? ==> 0.0 <= r.value.red <= 1.0 && 0.0 <= r.value.green <= 1.0 && 0.0 <= r.value.blue <= 1.0
  {
    var h := LStrip(hexColor, '#');
    if |h| != 6 then Failure(WrongLength) else ParsePairs(h)
  }

  // ----- the inverse: writing a colour as hex text -----

  /** The lower-case base-16 digit for `d < 16`. */
  function DigitChar(d: nat): (ch: char)
    requires d < 16
    ensures IsHexDigit(ch)
  {
    if d < 10 then ('0' as nat + d) as char else ('a' as nat + d - 10) as char
  }

  /** Two hex digits for a byte. */
  function HexPair(v: nat): (pair: string)
    requires v < 256
    ensures |pair| == 2
  {
    [DigitChar(v / 16), DigitChar(v % 16)]
  }

  /** `RRGGBB` for three bytes. */
  function HexColor(red: nat, green: nat, blue: nat): (s: string)
    requires red < 256 && green < 256 && blue < 256
    ensures |s| == 6
  {
    HexPair(red) + HexPair(green) + HexPair(blue)
  }

  function Hashes(k: nat): (s: string)
    ensures |s| == k && forall i :: 0 <= i < k ==> s[i] == '#'
  {
    if k == 0 then [] else ['#'] + Hashes(k - 1)
  }

  lemma PairRoundTrip(v: nat)
    requires v < 256
    ensures var pair := HexPair(v); PairValue(pair[0], pair[1]) == Some(v)
  {
    assert HexDigit(DigitChar(v / 16)) == Some(v / 16);
    assert HexDigit(DigitChar(v % 16)) == Some(v % 16);
  }

  /** Stripping a run of `c` from a string that continues with something else
      leaves exactly that continuation. */
  lemma {:induction false} LStripRun(k: nat, rest: string)
    requires rest == [] || rest[0] != '#'
    ensures LStrip(Hashes(k) + rest, '#') == rest
  {
    var s := Hashes(k) + rest;
    if k == 0 {
      assert s == rest;
    } else {
      assert s[0] == '#' && s[1..] == Hashes(k - 1) + rest;
      LStripRun(k - 1, rest);
    }
  }

  lemma HexColorPairs(red: nat, green: nat, blue: nat)
    requires red < 256 && green < 256 && blue < 256
    ensures var h := HexColor(red, green, blue);
            PairValue(h[0], h[1]) == Some(red) && PairValue(h[2], h[3]) == Some(green) && PairValue(h[4], h[5]) == Some(blue)
  {
    var h := HexColor(red, green, blue);
    assert h[0..2] == HexPair(red) && h[2..4] == HexPair(green) && h[4..6] == HexPair(blue);
    PairRoundTrip(red);
    PairRoundTrip(green);
    PairRoundTrip(blue);
  }

  /** Parsing the hex text of three bytes, behind any number of `#`, gives back
      each byte divided by 255. */
  lemma HexRoundTrip(k: nat, red: nat, green: nat, blue: nat)
    requires red < 256 && green < 256 && blue < 256
    ensures HexToRgb(Hashes(k) + HexColor(red, green, blue)) ==
              Success(Rgb(Component(red), Component(green), Component(blue)))
  {
    LStripRun(k, HexColor(red, green, blue));
    HexColorPairs(red, green, blue);
  }

  /** The byte a component in `[0, 1]` stands for. */
  function ToByte(x: real): (v: nat)
    requires 0.0 <= x <= 1.0
    ensures v < 256
  {
    (x * 255.0).Floor
  }

  lemma ToByteOfScaled(v: nat)
    requires v < 256
    ensures ToByte(Component(v)) == v
  {
    assert v as real / 255.0 * 255.0 == v as real;
  }

  /** Every parsed colour is three bytes divided by 255. */
  lemma ParsedBytes(hexColor: string) returns (red: nat, green: nat, blue: nat)
    requires HexToRgb(hexColor).Success?
    ensures red < 256 && green < 256 && blue < 256
    ensures HexToRgb(hexColor).value == Rgb(Component(red), Component(green), Component(blue))
  {
    var h := LStrip(hexColor, '#');
    HexTextPairs(h);
    red, green, blue := PairValue(h[0], h[1]).value, PairValue(h[2], h[3]).value, PairValue(h[4], h[5]).value;
  }

  /** A parsed colour is reproduced exactly by parsing its canonical hex text:
      every component is some byte divided by 255. */
  lemma ReencodeParsedColor(hexColor: string)
    requires HexToRgb(hexColor).Success?
    ensures var c := HexToRgb(hexColor).value;
            HexToRgb(HexColor(ToByte(c.red), ToByte(c.green), ToByte(c.blue))) == Success(c)
  {
    var red, green, blue := ParsedBytes(hexColor);
    ToByteOfScaled(red);
    ToByteOfScaled(green);
    ToByteOfScaled(blue);
    HexRoundTrip(0, red, green, blue);
    assert Hashes(0) + HexColor(red, green, blue) == HexColor(red, green, blue);
  }

  // ----- case -----

  /** `s` with every ASCII capital lower-cased. */
  function LowerText(s: string): (r: string)
    ensures |r| == |s| && forall k :: 0 <= k < |s| ==> r[k] == ToLower(s[k])
  {
    seq(|s|, k requires 0 <= k < |s| => ToLower(s[k]))
  }

  /** Which value a digit has: written back as a lower-case digit it is the
      lower-cased character, so `'F'` and `'f'` are both 15 and `'7'` is 7. */
  lemma HexDigitValue(ch: char)
    ensures HexDigit(ch).Some? ==> DigitChar(HexDigit(ch).value) == ToLower(ch)
  {
  }

  /** A digit and its lower-case form have the same value. */
  lemma HexDigitIgnoresCase(ch: char)
    ensures HexDigit(ToLower(ch)) == HexDigit(ch)
  {
  }

  lemma PairValueIgnoresCase(high: char, low: char)
    ensures PairValue(ToLower(high), ToLower(low)) == PairValue(high, low)
  {
    HexDigitIgnoresCase(high);
    HexDigitIgnoresCase(low);
  }

  /** Lower-casing commutes with stripping the leading `#`s. */
  lemma {:induction false} LStripLower(s: string)
    ensures LStrip(LowerText(s), '#') == LowerText(LStrip(s, '#'))
  {
    if s != [] && s[0] == '#' {
      assert LowerText(s)[1..] == LowerText(s[1..]);
      LStripLower(s[1..]);
    } else if s != [] {
      assert LowerText(s)[0] != '#';
    }
  }

  /** `hex_to_rgb` does not care about the case of the digits: `'#FF5733'` and
      `'#ff5733'` give the same colour, and the same errors. */
  lemma {:induction false} HexToRgbIgnoresCase(hexColor: string)
    ensures HexToRgb(LowerText(hexColor)) == HexToRgb(hexColor)
  {
    LStripLower(hexColor);
    var h := LStrip(hexColor, '#');
    if |h| == 6 {
      var l := LowerText(h);
      assert l[0] == ToLower(h[0]) && l[1] == ToLower(h[1]) && l[2] == ToLower(h[2]);
      assert l[3] == ToLower(h[3]) && l[4] == ToLower(h[4]) && l[5] == ToLower(h[5]);
      PairValueIgnoresCase(h[0], h[1]);
      PairValueIgnoresCase(h[2], h[3]);
      PairValueIgnoresCase(h[4], h[5]);
      HexTextPairs(h);
      HexTextPairs(l);
    }
  }

  /** The example colour of the function's documentation: `'#FF5733'` is
      `(255, 87, 51) / 255`. */
  lemma DocumentedExample()
    ensures HexToRgb("#FF5733") == Success(Rgb(Component(255), Component(87), Component(51)))
    ensures HexToRgb("FF5733") == HexToRgb("#FF5733")
  {
    assert LStrip("FF5733", '#') == "FF5733";
    assert LStrip("#FF5733", '#') == "FF5733" by {
      assert "#FF5733"[1..] == "FF5733";
    }
    var h := "FF5733";
    assert HexDigit(h[0]) == Some(15) && HexDigit(h[2]) == Some(5) && HexDigit(h[3]) == Some(7);
    assert HexDigit(h[4]) == Some(3) && HexDigit(h[5]) == Some(3);
  }
}
