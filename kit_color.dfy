/** `_parse_hex_color` of levelkit_text/engine/core.py: the 6- and 8-digit
    `#RRGGBB[AA]` forms of the CSS hex colour notation (section 5.2 of CSS
    Color Module Level 4), each pair read with Python's `int(pair, 16)`. The
    3- and 4-digit shorthands fall back like any other string. */
module KitColor {
  import opened Common

  /** A colour as the source's `(r, g, b, a)` tuple. */
  datatype Rgba = Rgba(r: int, g: int, b: int, a: int)

  /** What `_parse_hex_color` does: return a colour, or raise the `ValueError`
      of `int()` on a pair it cannot read. */
  datatype Parsed = Color(c: Rgba) | ValueError

  /** The value of a hexadecimal digit, either case. */
  function HexDigit(c: char): (r: Option<nat>)
    ensures r.Some? ==> r.value < 16
  {
    if '0' <= c <= '9' then Some(c as int - '0' as int)
    else if 'a' <= c <= 'f' then Some(c as int - 'a' as int + 10)
    else if 'A' <= c <= 'F' then Some(c as int - 'A' as int + 10)
    else None
  }

  /** `int(p0 + p1, 16)` on a two-character string: two digits; one digit
      with whitespace on either side; or one digit after a sign. None where
      Python raises. */
  function Component(p0: char, p1: char): (r: Option<int>)
    ensures r.Some? ==> -15 <= r.value < 256
    ensures HexDigit(p0).Some? && HexDigit(p1).Some? ==> r == Some(16 * HexDigit(p0).value + HexDigit(p1).value)
  {
    var d0 := HexDigit(p0);
    var d1 := HexDigit(p1);
    if d0.Some? && d1.Some? then Some(16 * d0.value + d1.value)
    else if IsSpace(p0) && d1.Some? then Some(d1.value)
    else if d0.Some? && IsSpace(p1) then Some(d0.value)
    else if p0 == '+' && d1.Some? then Some(d1.value)
    else if p0 == '-' && d1.Some? then Some(-(d1.value as int))
    else None
  }

  /** The pair starting at position `i` of `s`. */
  function Pair(s: string, i: nat): Option<int>
    requires i + 1 < |s|
  {
    Component(s[i], s[i + 1])
  }

  /** `_parse_hex_color(color, fallback)`: a `#` followed by eight characters
      gives red, green, blue and alpha; followed by six, alpha 255; anything
      else is the fallback. */
  function ParseHexColor(color: string, fallback: Rgba): Parsed {
    if |color| >= 1 && color[0] == '#' && |color| == 9 then
      var r, g, b, a := Pair(color, 1), Pair(color, 3), Pair(color, 5), Pair(color, 7);
      if r.Some? && g.Some? && b.Some? && a.Some? then Color(Rgba(r.value, g.value, b.value, a.value))
      else ValueError
    else if |color| >= 1 && color[0] == '#' && |color| == 7 then
      var r, g, b := Pair(color, 1), Pair(color, 3), Pair(color, 5);
      if r.Some? && g.Some? && b.Some? then Color(Rgba(r.value, g.value, b.value, 255))
      else ValueError
    else Color(fallback)
  }

  /** The forms the source reads: `#` and six or eight more characters. */
  predicate HexForm(color: string) {
    |color| >= 1 && color[0] == '#' && (|color| == 7 || |color| == 9)
  }

  /** Every pair of the form reads as a number. */
  predicate PairsRead(color: string)
    requires HexForm(color)
  {
    forall i | 0 <= i < (|color| - 1) / 2 :: Pair(color, 2 * i + 1).Some?
  }

  /** A string outside the two forms is the fallback; inside them the result
      is an error exactly when some pair cannot be read, and every component
      read lies in [-15, 255] (the negative ones from a sign), with alpha 255
      in the 6-digit form. */
  lemma ParseMeans(color: string, fallback: Rgba)
    ensures !HexForm(color) ==> ParseHexColor(color, fallback) == Color(fallback)
    ensures HexForm(color) ==> (ParseHexColor(color, fallback).ValueError? <==> !PairsRead(color))
    ensures HexForm(color) && PairsRead(color) ==>
      var c := ParseHexColor(color, fallback).c;
      && -15 <= c.r < 256 && -15 <= c.g < 256 && -15 <= c.b < 256 && -15 <= c.a < 256
      && (|color| == 7 ==> c.a == 255)
  {
    if HexForm(color) {
      var n := (|color| - 1) / 2;
      if ParseHexColor(color, fallback).ValueError? {
        if Pair(color, 1).None? {
          assert !Pair(color, 2 * 0 + 1).Some?;
        } else if Pair(color, 3).None? {
          assert !Pair(color, 2 * 1 + 1).Some?;
        } else if Pair(color, 5).None? {
          assert !Pair(color, 2 * 2 + 1).Some?;
        } else {
          assert |color| == 9 && Pair(color, 7).None?;
          assert !Pair(color, 2 * 3 + 1).Some?;
        }
      } else {
        forall i | 0 <= i < n ensures Pair(color, 2 * i + 1).Some? {
          assert i == 0 || i == 1 || i == 2 || i == 3;
        }
      }
    }
  }

  /** Strings whose every character after `#` is a hexadecimal digit. */
  predicate AllHex(color: string) {
    forall i | 1 <= i < |color| :: HexDigit(color[i]).Some?
  }

  /** With nothing but hexadecimal digits each component is a byte, in
      [0, 255]. */
  lemma DigitsGiveBytes(color: string, fallback: Rgba)
    requires HexForm(color) && AllHex(color)
    ensures ParseHexColor(color, fallback).Color?
    ensures var c := ParseHexColor(color, fallback).c;
      && 0 <= c.r < 256 && 0 <= c.g < 256 && 0 <= c.b < 256 && 0 <= c.a < 256
  {
    assert HexDigit(color[1]).Some? && HexDigit(color[2]).Some?;
    assert HexDigit(color[3]).Some? && HexDigit(color[4]).Some?;
    assert HexDigit(color[5]).Some? && HexDigit(color[6]).Some?;
    if |color| == 9 {
      assert HexDigit(color[7]).Some? && HexDigit(color[8]).Some?;
    }
  }

  // ---------------------------------------------------------------------------
  // Writing colours

  /** The lower-case digit of a value below 16. */
  function DigitChar(n: nat): (c: char)
    requires n < 16
    ensures HexDigit(c) == Some(n)
  {
    if n < 10 then ('0' as int + n) as char else ('a' as int + n - 10) as char
  }

  /** A byte as two hexadecimal digits. */
  function ByteHex(v: int): (s: string)
    requires 0 <= v < 256
    ensures |s| == 2 && Component(s[0], s[1]) == Some(v)
  {
    [DigitChar(v / 16), DigitChar(v % 16)]
  }

  predicate IsByte(v: int) {
    0 <= v < 256
  }

  predicate Bytes(c: Rgba) {
    IsByte(c.r) && IsByte(c.g) && IsByte(c.b) && IsByte(c.a)
  }

  /** `#rrggbbaa`. */
  function Format8(c: Rgba): string
    requires Bytes(c)
  {
    "#" + ByteHex(c.r) + ByteHex(c.g) + ByteHex(c.b) + ByteHex(c.a)
  }

  /** `#rrggbb`. */
  function Format6(c: Rgba): string
    requires IsByte(c.r) && IsByte(c.g) && IsByte(c.b)
  {
    "#" + ByteHex(c.r) + ByteHex(c.g) + ByteHex(c.b)
  }

  /** Reading back the 8-digit form of a colour gives the colour. */
  lemma ParseFormat8(c: Rgba, fallback: Rgba)
    requires Bytes(c)
    ensures ParseHexColor(Format8(c), fallback) == Color(c)
  {
    var s := Format8(c);
    var r, g, b, a := ByteHex(c.r), ByteHex(c.g), ByteHex(c.b), ByteHex(c.a);
    assert s[1] == r[0] && s[2] == r[1];
    assert s[3] == g[0] && s[4] == g[1];
    assert s[5] == b[0] && s[6] == b[1];
    assert s[7] == a[0] && s[8] == a[1];
  }

  /** Reading back the 6-digit form of a colour gives it fully opaque. */
  lemma ParseFormat6(c: Rgba, fallback: Rgba)
    requires IsByte(c.r) && IsByte(c.g) && IsByte(c.b)
    ensures ParseHexColor(Format6(c), fallback) == Color(c.(a := 255))
  {
    var s := Format6(c);
    var r, g, b := ByteHex(c.r), ByteHex(c.g), ByteHex(c.b);
    assert s[1] == r[0] && s[2] == r[1];
    assert s[3] == g[0] && s[4] == g[1];
    assert s[5] == b[0] && s[6] == b[1];
  }

  /** Case does not matter: a colour reads the same after lower-casing. */
  lemma ParseIgnoresCase(color: string, fallback: Rgba)
    ensures ParseHexColor(Lower(color), fallback) == ParseHexColor(color, fallback)
  {
    var l := Lower(color);
    if |color| == 7 || |color| == 9 {
      forall i | 1 <= i < |color| - 1 ensures Component(l[i], l[i + 1]) == Component(color[i], color[i + 1]) {
      }
      assert Pair(l, 1) == Pair(color, 1) && Pair(l, 3) == Pair(color, 3) && Pair(l, 5) == Pair(color, 5);
      if |color| == 9 {
        assert Pair(l, 7) == Pair(color, 7);
      }
    }
  }

  /** Python's `int()` takes a sign or whitespace inside a pair: "#-1-1-1"
      reads as the colour (-1, -1, -1, 255) and "# f f f" as (15, 15, 15, 255). */
  lemma SignsAndSpacesRead(fallback: Rgba)
    ensures ParseHexColor("#-1-1-1", fallback) == Color(Rgba(-1, -1, -1, 255))
    ensures ParseHexColor("# f f f", fallback) == Color(Rgba(15, 15, 15, 255))
  {
    var s := "#-1-1-1";
    assert s[1] == '-' && s[2] == '1' && s[3] == '-' && s[4] == '1' && s[5] == '-' && s[6] == '1';
    var t := "# f f f";
    assert t[1] == ' ' && t[2] == 'f' && t[3] == ' ' && t[4] == 'f' && t[5] == ' ' && t[6] == 'f';
  }
}
