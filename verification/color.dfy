/**
 The integer part of lib/color.ts: `clamp`, and `hexToRgb`, which validates a
 six-digit hex colour (optionally `#`-prefixed, surrounded by white space) and
 decodes it into three 8-bit channels.
 */
module Color {
  import opened Maybe
  import opened Text

  datatype Rgb = Rgb(r: int, g: int, b: int)

  predicate IsByte(x: int) {
    0 <= x < 256
  }

  predicate ValidRgb(c: Rgb) {
    IsByte(c.r) && IsByte(c.g) && IsByte(c.b)
  }

  function Max(a: real, b: real): real {
    if a >= b then a else b
  }

  function Min(a: real, b: real): real {
    if a <= b then a else b
  }

  /**
   `clamp(value, min, max)` as `Math.min(max, Math.max(min, value))`: inside the
   range when the range is non-empty, the value itself when already inside, and
   `max` whenever the bounds are crossed.
   */
  function Clamp(value: real, min: real, max: real): (r: real)
    ensures min <= max ==> min <= r <= max
    ensures min <= value <= max ==> r == value
    ensures value < min <= max ==> r == min
    ensures max < value ==> r == max
    ensures max < min ==> r == max
  {
    Min(max, Max(min, value))
  }

  /** Clamping twice is clamping once, and clamping keeps the order of values. */
  lemma ClampIdempotentMonotone(v: real, w: real, min: real, max: real)
    requires min <= max
    ensures Clamp(Clamp(v, min, max), min, max) == Clamp(v, min, max)
    ensures v <= w ==> Clamp(v, min, max) <= Clamp(w, min, max)
  {
  }

  /** A trimmed string of exactly six hex digits, or `#` and six hex digits. */
  predicate IsHexColorText(t: string) {
    || (|t| == 6 && AllHex(t))
    || (|t| == 7 && t[0] == '#' && AllHex(t[1..]))
  }

  /** `hex.trim().replace(/^#/, "")`: at most one leading `#` is removed. */
  function StripHash(hex: string): (d: string)
    ensures |d| <= |hex|
    ensures d == Trim(hex) || (|Trim(hex)| > 0 && Trim(hex)[0] == '#' && d == Trim(hex)[1..])
    ensures |Trim(hex)| > 0 && Trim(hex)[0] == '#' ==> d == Trim(hex)[1..]
  {
    var t := Trim(hex);
    if |t| > 0 && t[0] == '#' then t[1..] else t
  }

  /** `Number.parseInt(digits, 16)` on hex digits only: the big-endian base-16 value. */
  function HexValue(digits: string): (v: nat)
    requires AllHex(digits)
    ensures v < Pow16(|digits|)
    decreases |digits|
  {
    if |digits| == 0 then 0
    else
      var h := HexValue(digits[..|digits| - 1]);
      assert h * 16 + 15 < Pow16(|digits| - 1) * 16 by {
        assert h + 1 <= Pow16(|digits| - 1);
      }
      h * 16 + DigitValue(digits[|digits| - 1])
  }

  /** `16` to the power `n`: one more than the largest value of `n` hex digits. */
  function Pow16(n: nat): (p: nat)
    ensures p > 0
  {
    if n == 0 then 1 else 16 * Pow16(n - 1)
  }

  /** The value of a two-digit pair. */
  function Byte(hi: char, lo: char): (x: nat)
    requires IsHexDigit(hi) && IsHexDigit(lo)
    ensures IsByte(x)
  {
    16 * DigitValue(hi) + DigitValue(lo)
  }

  /** Six digits are three bytes, most significant first. */
  lemma SixDigitValue(d: string)
    requires |d| == 6 && AllHex(d)
    ensures HexValue(d) == 65536 * Byte(d[0], d[1]) + 256 * Byte(d[2], d[3]) + Byte(d[4], d[5])
  {
    assert d[..5][..4] == d[..4];
    assert d[..4][..3] == d[..3];
    assert d[..3][..2] == d[..2];
    assert d[..2][..1] == d[..1];
    assert d[..1][..0] == [];
    assert AllHex(d[..1]) && AllHex(d[..2]) && AllHex(d[..3]) && AllHex(d[..4]) && AllHex(d[..5]);
    assert HexValue(d[..0]) == 0;
    var v1 := HexValue(d[..1]);
    assert d[..1][0] == d[0];
    assert v1 == DigitValue(d[0]);
    var v2 := HexValue(d[..2]);
    assert v2 == v1 * 16 + DigitValue(d[1]);
    var v3 := HexValue(d[..3]);
    assert v3 == v2 * 16 + DigitValue(d[2]);
    var v4 := HexValue(d[..4]);
    assert v4 == v3 * 16 + DigitValue(d[3]);
    var v5 := HexValue(d[..5]);
    assert v5 == v4 * 16 + DigitValue(d[4]);
    assert HexValue(d) == v5 * 16 + DigitValue(d[5]);
  }

  /** The source's `(value >> 16) & 255`, `(value >> 8) & 255` and `value & 255` undo the byte packing. */
  lemma UnpackBytes(x: nat, y: nat, z: nat)
    requires IsByte(x) && IsByte(y) && IsByte(z)
    ensures var v := 65536 * x + 256 * y + z;
      (v / 65536) % 256 == x && (v / 256) % 256 == y && v % 256 == z
  {
    var v := 65536 * x + 256 * y + z;
    assert v / 65536 == x;
    assert v / 256 == 256 * x + y;
    assert (256 * x + y) % 256 == y;
  }

  /**
   `hexToRgb`: `None` (the source's `null`) unless the trimmed input is six hex
   digits with at most one `#` before them; otherwise three bytes whose packing
   is the base-16 value of the digits. For a value below 2^24 the source's
   `(value >> n) & 255` is `(value / 2^n) % 256`.
   */
  function HexToRgb(hex: string): (r: Option<Rgb>)
    ensures r.Some? <==> IsHexColorText(Trim(hex))
    ensures r.Some? ==> |StripHash(hex)| == 6 && AllHex(StripHash(hex))
    ensures r.Some? ==> ValidRgb(r.value)
    ensures r.Some? ==> r.value.r * 65536 + r.value.g * 256 + r.value.b == HexValue(StripHash(hex))
  {
    var normalized := StripHash(hex);
    if |normalized| == 6 && AllHex(normalized) then
      var value := HexValue(normalized);
      SixDigitValue(normalized);
      var d := normalized;
      UnpackBytes(Byte(d[0], d[1]), Byte(d[2], d[3]), Byte(d[4], d[5]));
      Some(Rgb((value / 65536) % 256, (value / 256) % 256, value % 256))
    else
      None
  }

  /** Two upper-case digits for a byte. */
  function ByteHex(x: int): (s: string)
    requires IsByte(x)
    ensures |s| == 2 && IsUpperHexDigit(s[0]) && IsUpperHexDigit(s[1])
  {
    [UpperDigit(x / 16), UpperDigit(x % 16)]
  }

  /** Six upper-case digits for a colour. */
  function RgbHex(c: Rgb): (s: string)
    requires ValidRgb(c)
    ensures |s| == 6
  {
    ByteHex(c.r) + ByteHex(c.g) + ByteHex(c.b)
  }

  lemma ByteHexOfDigits(hi: char, lo: char)
    requires IsHexDigit(hi) && IsHexDigit(lo)
    ensures ByteHex(Byte(hi, lo)) == [UpperChar(hi), UpperChar(lo)]
  {
    UpperHexDigit(hi);
    UpperHexDigit(lo);
    var x := Byte(hi, lo);
    assert x / 16 == DigitValue(hi) && x % 16 == DigitValue(lo);
  }

  /** A valid input decodes to the three digit pairs of its digits, in order. */
  lemma HexToRgbBytes(hex: string)
    requires HexToRgb(hex).Some?
    ensures var d := StripHash(hex);
      HexToRgb(hex).value == Rgb(Byte(d[0], d[1]), Byte(d[2], d[3]), Byte(d[4], d[5]))
  {
    var d := StripHash(hex);
    SixDigitValue(d);
    UnpackBytes(Byte(d[0], d[1]), Byte(d[2], d[3]), Byte(d[4], d[5]));
  }

  /** Decoding then re-encoding gives back the input digits, upper-cased. */
  lemma HexToRgbThenHex(hex: string)
    requires HexToRgb(hex).Some?
    ensures RgbHex(HexToRgb(hex).value) == Upper(StripHash(hex))
  {
    var d := StripHash(hex);
    HexToRgbBytes(hex);
    ByteHexOfDigits(d[0], d[1]);
    ByteHexOfDigits(d[2], d[3]);
    ByteHexOfDigits(d[4], d[5]);
    var u := Upper(d);
    assert u == [u[0], u[1]] + [u[2], u[3]] + [u[4], u[5]];
  }

  lemma ByteOfByteHex(x: int)
    requires IsByte(x)
    ensures var s := ByteHex(x); IsHexDigit(s[0]) && IsHexDigit(s[1]) && Byte(s[0], s[1]) == x
  {
  }

  lemma RgbHexIsColorText(c: Rgb)
    requires ValidRgb(c)
    ensures var s := RgbHex(c);
      AllHex(s) && StripHash(s) == s && IsHexColorText(Trim(s))
  {
    var s := RgbHex(c);
    assert AllHex(s);
    TrimUnchanged(s);
  }

  /** Encoding then decoding gives back the colour. */
  lemma RgbHexThenHexToRgb(c: Rgb)
    requires ValidRgb(c)
    ensures HexToRgb(RgbHex(c)) == Some(c)
  {
    var s := RgbHex(c);
    RgbHexIsColorText(c);
    ByteOfByteHex(c.r);
    ByteOfByteHex(c.g);
    ByteOfByteHex(c.b);
    HexToRgbBytes(s);
  }

  lemma HexValueUpper(d: string)
    requires |d| == 6 && AllHex(d)
    ensures AllHex(Upper(d)) && HexValue(Upper(d)) == HexValue(d)
  {
    var u := Upper(d);
    forall k | 0 <= k < 6
      ensures IsHexDigit(u[k]) && DigitValue(u[k]) == DigitValue(d[k])
    {
      UpperHexDigit(d[k]);
    }
    SixDigitValue(d);
    SixDigitValue(u);
  }

  /** One optional `#` and six hex digits: what remains after `trim` and what `replace(/^#/, "")` leaves. */
  lemma HashedDigits(digits: string, hash: bool)
    requires |digits| == 6 && AllHex(digits)
    ensures var body := (if hash then "#" else "") + digits;
      && !IsSpace(body[0]) && !IsSpace(body[|body| - 1])
      && (if |body| > 0 && body[0] == '#' then body[1..] else body) == digits
  {
    var body := (if hash then "#" else "") + digits;
    assert body[|body| - 1] == digits[5];
    assert IsHexDigit(digits[0]) && IsHexDigit(digits[5]);
    if hash {
      assert body[0] == '#' && body[1..] == digits;
    } else {
      assert body == digits;
    }
  }

  lemma StripHashOfTrimmed(hex: string, digits: string, hash: bool)
    requires |digits| == 6 && AllHex(digits)
    requires Trim(hex) == (if hash then "#" else "") + digits
    ensures StripHash(hex) == digits
  {
    HashedDigits(digits, hash);
  }

  lemma StripSurrounded(pre: string, digits: string, post: string, hash: bool)
    requires AllSpace(pre) && AllSpace(post)
    requires |digits| == 6 && AllHex(digits)
    ensures StripHash(pre + (if hash then "#" else "") + digits + post) == digits
  {
    var body := (if hash then "#" else "") + digits;
    var hex := pre + (if hash then "#" else "") + digits + post;
    HashedDigits(digits, hash);
    assert hex == pre + body + post;
    TrimExact(pre, body, post);
    StripHashOfTrimmed(hex, digits, hash);
  }

  lemma StripUpper(digits: string)
    requires |digits| == 6 && AllHex(digits)
    ensures StripHash(Upper(digits)) == Upper(digits)
  {
    HexValueUpper(digits);
    TrimUnchanged(Upper(digits));
  }

  /** Letter case and surrounding white space do not matter, nor does one leading `#`. */
  lemma HexToRgbIgnoresCaseAndSpace(pre: string, digits: string, post: string, hash: bool)
    requires AllSpace(pre) && AllSpace(post)
    requires |digits| == 6 && AllHex(digits)
    ensures HexToRgb(pre + (if hash then "#" else "") + digits + post) == HexToRgb(Upper(digits))
  {
    var hex := pre + (if hash then "#" else "") + digits + post;
    StripSurrounded(pre, digits, post, hash);
    StripUpper(digits);
    HexValueUpper(digits);
    assert HexToRgb(hex).Some? && HexToRgb(Upper(digits)).Some?;
    HexToRgbBytes(hex);
    HexToRgbBytes(Upper(digits));
  }

  lemma DoubleHashTrim(digits: string)
    requires AllHex(digits)
    ensures !IsHexColorText(Trim("##" + digits))
  {
    var twice := "##" + digits;
    TrimUnchanged(twice);
    assert twice[1..][0] == '#';
  }

  lemma WrongLengthTrim(digits: string)
    requires AllHex(digits) && |digits| != 6
    ensures !IsHexColorText(Trim(digits)) && !IsHexColorText(Trim("#" + digits))
  {
    TrimUnchanged(digits);
    TrimUnchanged("#" + digits);
    assert ("#" + digits)[1..] == digits;
  }

  /** Only one `#` is removed, and any other number of digits is refused. */
  lemma HexToRgbRejects(digits: string)
    requires AllHex(digits)
    ensures HexToRgb("##" + digits) == None
    ensures |digits| != 6 ==> HexToRgb(digits) == None && HexToRgb("#" + digits) == None
  {
    DoubleHashTrim(digits);
    if |digits| != 6 {
      WrongLengthTrim(digits);
    }
  }
}
