/**
 * The RGBA colour value of the openmfd backend: channels clamped into 0..255, built from
 * channel values, from the six-digit hexadecimal notation (`#RRGGBB`, as in section 5.2 of
 * CSS Color Module Level 4) or from a name looked up in five colour tables, each table
 * parsed from lines of `name,#RRGGBB` text.
 */
module Colors {
  import opened Wrappers
  import opened Numbers
  import opened Text

  type Rgb = (int, int, int)

  predicate InByte(v: int) { 0 <= v <= 255 }

  /** `_clamp`: truncate toward zero, then clamp into 0..255. */
  function Clamp(value: real): (c: int)
    ensures InByte(c)
    ensures InByte(Trunc(value)) ==> c == Trunc(value)
    ensures Trunc(value) < 0 ==> c == 0
    ensures Trunc(value) > 255 ==> c == 255
  {
    Max(0, Min(255, Trunc(value)))
  }

  /** Clamping a value that is already a channel changes nothing. */
  lemma ClampChannel(v: int)
    requires InByte(v)
    ensures Clamp(v as real) == v
  {
    assert Trunc(v as real) == v;
  }

  // ---------------------------------------------------------------------------------
  // Hexadecimal fields
  // ---------------------------------------------------------------------------------

  predicate IsHexDigit(c: char) { '0' <= c <= '9' || 'a' <= c <= 'f' || 'A' <= c <= 'F' }

  predicate AllHex(s: string) { forall i :: 0 <= i < |s| ==> IsHexDigit(s[i]) }

  function HexDigitValue(c: char): (v: nat)
    requires IsHexDigit(c)
    ensures v < 16
  {
    if '0' <= c <= '9' then (c as int) - ('0' as int)
    else if 'a' <= c <= 'f' then (c as int) - ('a' as int) + 10
    else (c as int) - ('A' as int) + 10
  }

  /** The value of a run of hexadecimal digits, most significant first. */
  function HexValue(s: string): nat
    requires AllHex(s)
  {
    if |s| == 0 then 0 else HexValue(s[..|s| - 1]) * 16 + HexDigitValue(s[|s| - 1])
  }

  /**
   * Python `int(field, 16)` on a field of at most two characters: surrounding whitespace,
   * an optional sign and at least one hexadecimal digit; anything else raises. (The `0x`
   * prefix and `_` separators need more than two characters to be valid.)
   */
  function ParseHexField(field: string): Option<int>
  {
    var t := Strip(field);
    if |t| > 0 && (t[0] == '+' || t[0] == '-') then
      (if |t| > 1 && AllHex(t[1..]) then Some(if t[0] == '-' then -(HexValue(t[1..]) as int) else HexValue(t[1..]) as int)
       else None)
    else if |t| > 0 && AllHex(t) then Some(HexValue(t) as int)
    else None
  }

  /** A non-empty run of hexadecimal digits, with nothing around it, parses to its value. */
  lemma ParseHexDigits(field: string)
    requires |field| > 0 && AllHex(field)
    ensures ParseHexField(field) == Some(HexValue(field) as int)
  {
    HexNotSpace(field[0]);
    HexNotSpace(field[|field| - 1]);
    StripPlain(field);
  }

  lemma HexNotSpace(c: char)
    requires IsHexDigit(c)
    ensures !IsSpace(c) && c != '+' && c != '-'
  {
  }

  /** Python's slice `s[i:j]` for non-negative bounds, which are clipped to the length. */
  function Slice(s: string, i: nat, j: nat): (r: string)
    ensures |r| <= 2 || j - i > 2
  {
    var hi := if j <= |s| then j else |s|;
    var lo := if i <= hi then i else hi;
    s[lo..hi]
  }

  /** The three two-character fields of a hex code, decoded; None when one of them is not a number. */
  function DecodeFields(hex: string): (r: Option<Rgb>)
  {
    var r := ParseHexField(Slice(hex, 0, 2));
    var g := ParseHexField(Slice(hex, 2, 4));
    var b := ParseHexField(Slice(hex, 4, 6));
    if r.Some? && g.Some? && b.Some? then Some((r.value, g.value, b.value)) else None
  }

  function HexChar(d: nat): (c: char)
    requires d < 16
    ensures IsHexDigit(c) && HexDigitValue(c) == d
  {
    if d < 10 then ('0' as int + d) as char else ('a' as int + d - 10) as char
  }

  /** A channel as two lower-case hexadecimal digits. */
  function Hex2(v: int): (s: string)
    requires InByte(v)
    ensures |s| == 2 && AllHex(s) && HexValue(s) == v
  {
    var s := [HexChar(v / 16), HexChar(v % 16)];
    assert s[..1] == [s[0]] && s[..1][..0] == [];
    assert HexValue(s[..1]) == v / 16;
    s
  }

  /** `from_hex` up to the constructor: strip, drop leading '#', demand six characters, decode. */
  function HexChannels(hexCode: string): (r: Result<Rgb>)
    ensures |LStripChar(Strip(hexCode), '#')| != 6 ==> r == Err("Hex code must be 6 characters long")
    ensures r.Ok? ==> |LStripChar(Strip(hexCode), '#')| == 6
  {
    var hex := LStripChar(Strip(hexCode), '#');
    if |hex| != 6 then Err("Hex code must be 6 characters long")
    else
      match DecodeFields(hex)
      case Some(rgb) => Ok(rgb)
      case None => Err("invalid literal for int() with base 16")
  }

  lemma StripPlain(s: string)
    requires |s| > 0 && !IsSpace(s[0]) && !IsSpace(s[|s| - 1])
    ensures Strip(s) == s
  {
  }

  /** Writing channels as `#rrggbb` and reading the code back gives the same channels. */
  lemma HexRoundTrip(r: int, g: int, b: int)
    requires InByte(r) && InByte(g) && InByte(b)
    ensures HexChannels("#" + Hex2(r) + Hex2(g) + Hex2(b)) == Ok((r, g, b))
  {
    var six := Hex2(r) + Hex2(g) + Hex2(b);
    assert "#" + Hex2(r) + Hex2(g) + Hex2(b) == "#" + six;
    assert AllHex(six) by {
      forall k | 0 <= k < 6 ensures IsHexDigit(six[k]) {
        if k < 2 { assert six[k] == Hex2(r)[k]; }
        else if k < 4 { assert six[k] == Hex2(g)[k - 2]; }
        else { assert six[k] == Hex2(b)[k - 4]; }
      }
    }
    HexCodeBody(six);
    assert LStripChar(Strip("#" + six), '#') == six;
    DecodeHex2s(r, g, b);
  }

  /** The three two-digit fields of a code written from three channels decode to those channels. */
  lemma DecodeHex2s(r: int, g: int, b: int)
    requires InByte(r) && InByte(g) && InByte(b)
    ensures DecodeFields(Hex2(r) + Hex2(g) + Hex2(b)) == Some((r, g, b))
  {
    DecodeSix(Hex2(r), Hex2(g), Hex2(b));
    FieldOfHex2(r);
    FieldOfHex2(g);
    FieldOfHex2(b);
  }

  lemma DecodeSix(x: string, y: string, z: string)
    requires |x| == 2 && |y| == 2 && |z| == 2
    ensures Slice(x + y + z, 0, 2) == x && Slice(x + y + z, 2, 4) == y && Slice(x + y + z, 4, 6) == z
  {
  }

  /** Stripping `#` and surrounding whitespace from `#` followed by six digits leaves the digits. */
  lemma HexCodeBody(six: string)
    requires |six| == 6 && AllHex(six)
    ensures LStripChar(Strip("#" + six), '#') == six
  {
    var code := "#" + six;
    assert code[0] == '#' && code[|code| - 1] == six[5];
    assert IsHexDigit(six[5]) && IsHexDigit(six[0]);
    StripPlain(code);
    assert code[1..] == six;
  }

  lemma FieldOfHex2(v: int)
    requires InByte(v)
    ensures ParseHexField(Hex2(v)) == Some(v)
  {
    ParseHexDigits(Hex2(v));
  }

  // ---------------------------------------------------------------------------------
  // Colour tables
  // ---------------------------------------------------------------------------------

  /** What one line of a colour file contributes. */
  datatype Line = Blank | Malformed | Entry(name: string, rgb: Rgb)

  /**
   * One line of `parse_colors_from_text`: a blank line is skipped; otherwise it must split
   * into exactly two comma-separated parts, the name is lower-cased and the code loses its
   * leading '#' before its three fields are decoded.
   */
  function ParseLine(line: string): (r: Line)
    ensures r.Entry? ==> r.name == Lower(r.name)
  {
    var t := Strip(line);
    if t == "" then Blank
    else
      var parts := Split(t, ',');
      if |parts| != 2 then Malformed
      else
        match DecodeFields(LStripChar(parts[1], '#'))
        case Some(rgb) => LowerIdempotent(parts[0]); Entry(Lower(parts[0]), rgb)
        case None => Malformed
  }

  /**
   * A line written as `name,#rrggbb` from a comma-free name that does not start with a blank
   * reads back as the lower-cased name with the three channels.
   */
  lemma ParseLineWritten(name: string, r: int, g: int, b: int)
    requires |name| > 0 && ',' !in name && !IsSpace(name[0])
    requires InByte(r) && InByte(g) && InByte(b)
    ensures ParseLine(name + ",#" + Hex2(r) + Hex2(g) + Hex2(b)) == Entry(Lower(name), (r, g, b))
  {
    var code := "#" + Hex2(r) + Hex2(g) + Hex2(b);
    assert name + ",#" + Hex2(r) + Hex2(g) + Hex2(b) == name + [','] + code;
    WrittenCode(r, g, b);
    StripAroundComma(name, code);
    ParseCommaLine(name, code, (r, g, b));
  }

  /** A code written as `#rrggbb` has no comma, ends in a non-blank and decodes to its channels once '#' goes. */
  lemma WrittenCode(r: int, g: int, b: int)
    requires InByte(r) && InByte(g) && InByte(b)
    ensures var code := "#" + Hex2(r) + Hex2(g) + Hex2(b);
            |code| == 7 && ',' !in code && !IsSpace(code[6]) &&
            DecodeFields(LStripChar(code, '#')) == Some((r, g, b))
  {
    var six := Hex2(r) + Hex2(g) + Hex2(b);
    var code := "#" + Hex2(r) + Hex2(g) + Hex2(b);
    assert code == "#" + six;
    assert code[6] == Hex2(b)[1] && six[0] == Hex2(r)[0];
    HexNotSpace(Hex2(b)[1]);
    assert ',' !in code by {
      forall k | 0 <= k < 7 ensures code[k] != ',' {
        if k > 0 { assert code[k] == six[k - 1]; }
      }
    }
    StripHash(six);
    DecodeHex2s(r, g, b);
  }

  /** `lstrip("#")` removes the one leading '#' in front of text that does not start with '#'. */
  lemma StripHash(s: string)
    requires |s| > 0 && s[0] != '#'
    ensures LStripChar("#" + s, '#') == s
  {
    assert ("#" + s)[1..] == s;
  }

  /** Stripping leaves `name,code` alone when it neither starts nor ends with a blank. */
  lemma StripAroundComma(name: string, code: string)
    requires |name| > 0 && !IsSpace(name[0]) && |code| > 0 && !IsSpace(code[|code| - 1])
    ensures Strip(name + [','] + code) == name + [','] + code
  {
    var line := name + [','] + code;
    assert line[|line| - 1] == code[|code| - 1];
    assert line[0] == name[0];
    StripPlain(line);
  }

  /** An unstripped `name,code` line whose code decodes gives the lower-cased name and the decoded channels. */
  lemma ParseCommaLine(name: string, code: string, rgb: Rgb)
    requires ',' !in name && ',' !in code
    requires Strip(name + [','] + code) == name + [','] + code
    requires DecodeFields(LStripChar(code, '#')) == Some(rgb)
    ensures ParseLine(name + [','] + code) == Entry(Lower(name), rgb)
  {
    SplitPair(name, code, ',');
    ParseLineOf(name + [','] + code, name, code, rgb);
  }

  lemma ParseLineOf(line: string, name: string, code: string, rgb: Rgb)
    requires Strip(line) == line && line != ""
    requires Split(line, ',') == [name, code] && DecodeFields(LStripChar(code, '#')) == Some(rgb)
    ensures ParseLine(line) == Entry(Lower(name), rgb)
  {
  }

  /** A line that is empty once stripped contributes nothing. */
  lemma ParseLineBlank(line: string)
    ensures ParseLine(line) == Blank <==> Strip(line) == ""
  {
  }

  lemma LowerIdempotent(s: string)
    ensures Lower(Lower(s)) == Lower(s)
  {
  }

  /** The table the first `|lines|` lines build, or the error the first malformed one raises. */
  function ParseColors(lines: seq<string>, prefix: string): (r: Result<map<string, Rgb>>)
    ensures r.Ok? ==> forall k :: k in r.value ==> StartsWith(k, prefix)
    decreases |lines|
  {
    if |lines| == 0 then Ok(map[])
    else
      match ParseColors(lines[..|lines| - 1], prefix)
      case Err(e) => Err(e)
      case Ok(d) =>
        match ParseLine(lines[|lines| - 1])
        case Blank => Ok(d)
        case Malformed => Err("malformed colour line")
        case Entry(name, rgb) => StartsWithConcat(prefix, name); Ok(d[prefix + name := rgb])
  }

  /** `parse_colors_from_text` over the lines of the file. */
  method ParseColorsFromText(lines: seq<string>, prefix: string) returns (r: Result<map<string, Rgb>>)
    ensures r == ParseColors(lines, prefix)
  {
    var colors: map<string, Rgb> := map[];
    var i := 0;
    while i < |lines|
      invariant 0 <= i <= |lines|
      invariant ParseColors(lines[..i], prefix) == Ok(colors)
      decreases |lines| - i
    {
      var next := ParseColorsStep(lines, i, prefix, colors);
      if next.Err? {
        PrefixErrorStays(lines, i + 1, prefix);
        return next;
      }
      colors := next.value;
      i := i + 1;
    }
    assert lines[..|lines|] == lines;
    r := Ok(colors);
  }

  /** One loop body of `parse_colors_from_text`: line `i` on top of the table the earlier lines built. */
  method ParseColorsStep(lines: seq<string>, i: nat, prefix: string, colors: map<string, Rgb>)
    returns (r: Result<map<string, Rgb>>)
    requires i < |lines| && ParseColors(lines[..i], prefix) == Ok(colors)
    ensures r == ParseColors(lines[..i + 1], prefix)
  {
    assert lines[..i + 1][..i] == lines[..i];
    assert lines[..i + 1][i] == lines[i];
    var line := ParseLine(lines[i]);
    if line.Malformed? {
      r := Err("malformed colour line");
    } else if line.Entry? {
      r := Ok(colors[prefix + line.name := line.rgb]);
    } else {
      r := Ok(colors);
    }
  }

  /** Once a prefix of the lines fails, the whole file fails with the same error. */
  lemma {:induction false} PrefixErrorStays(lines: seq<string>, n: nat, prefix: string)
    requires n <= |lines| && ParseColors(lines[..n], prefix).Err?
    ensures ParseColors(lines, prefix) == ParseColors(lines[..n], prefix)
    decreases |lines| - n
  {
    if n < |lines| {
      assert lines[..n + 1][..n] == lines[..n];
      PrefixErrorStays(lines, n + 1, prefix);
    } else {
      assert lines[..n] == lines;
    }
  }

  /** An entry that no later line redefines keeps its value: later duplicates overwrite earlier ones. */
  lemma {:induction false} LastDefinitionWins(lines: seq<string>, prefix: string, i: nat)
    requires i < |lines| && ParseLine(lines[i]).Entry? && ParseColors(lines, prefix).Ok?
    requires forall j :: i < j < |lines| ==> !(ParseLine(lines[j]).Entry? && ParseLine(lines[j]).name == ParseLine(lines[i]).name)
    ensures var e := ParseLine(lines[i]);
            prefix + e.name in ParseColors(lines, prefix).value &&
            ParseColors(lines, prefix).value[prefix + e.name] == e.rgb
    decreases |lines|
  {
    var front := lines[..|lines| - 1];
    if i < |lines| - 1 {
      assert ParseColors(front, prefix).Ok?;
      forall j | i < j < |front| ensures !(ParseLine(front[j]).Entry? && ParseLine(front[j]).name == ParseLine(front[i]).name) {
        assert front[j] == lines[j];
      }
      LastDefinitionWins(front, prefix, i);
      var last := ParseLine(lines[|lines| - 1]);
      if last.Entry? {
        assert last.name != ParseLine(lines[i]).name;
      }
    }
  }

  /** The five tables `from_name` consults, in order. */
  datatype Tables = Tables(
    base: map<string, Rgb>, tab: map<string, Rgb>, open: map<string, Rgb>,
    x11: map<string, Rgb>, xkcd: map<string, Rgb>)

  predicate Known(t: Tables, key: string)
  {
    key in t.base || key in t.tab || key in t.open || key in t.x11 || key in t.xkcd
  }

  /** `name.startswith("c") and name[1:].isdigit()`: a colour-cycle name such as `c3`. */
  predicate CycleName(key: string) { |key| >= 2 && key[0] == 'c' && AllDigits(key[1..]) }

  const UnknownColor: string := "Unknown color name: "
  const ModuloByZero: string := "integer modulo by zero"

  /**
   * `from_name` up to the constructor: the lower-cased name looked up in the base, Tableau,
   * Open Color, X11 and xkcd tables in that order, the first table that has it winning.
   * A name in no table raises "Unknown color name". A `c<digits>` colour-cycle name is
   * first rewritten to a Tableau name, which only changes that message, unless the Tableau
   * table is empty, where taking the index modulo its size raises a division by zero.
   */
  function NameChannels(name: string, t: Tables): (r: Result<Rgb>)
    ensures r.Ok? <==> Known(t, Lower(name))
    ensures Lower(name) in t.base ==> r == Ok(t.base[Lower(name)])
    ensures Lower(name) !in t.base && Lower(name) in t.tab ==> r == Ok(t.tab[Lower(name)])
    ensures Lower(name) !in t.base && Lower(name) !in t.tab && Lower(name) in t.open ==> r == Ok(t.open[Lower(name)])
    ensures Lower(name) !in t.base && Lower(name) !in t.tab && Lower(name) !in t.open && Lower(name) in t.x11
            ==> r == Ok(t.x11[Lower(name)])
    ensures (Lower(name) !in t.base && Lower(name) !in t.tab && Lower(name) !in t.open && Lower(name) !in t.x11
             && Lower(name) in t.xkcd) ==> r == Ok(t.xkcd[Lower(name)])
    ensures !Known(t, Lower(name)) && CycleName(Lower(name)) && |t.tab| == 0 ==> r == Err(ModuloByZero)
    ensures !Known(t, Lower(name)) && !(CycleName(Lower(name)) && |t.tab| == 0) ==>
              r.Err? && StartsWith(r.msg, UnknownColor)
  {
    var key := Lower(name);
    if key in t.base then Ok(t.base[key])
    else if key in t.tab then Ok(t.tab[key])
    else if key in t.open then Ok(t.open[key])
    else if key in t.x11 then Ok(t.x11[key])
    else if key in t.xkcd then Ok(t.xkcd[key])
    else if CycleName(key) && |t.tab| == 0 then Err(ModuloByZero)
    else Err(UnknownColor + key)
  }

  /** Names differing only in letter case select the same colour. */
  lemma NameIgnoresCase(a: string, b: string, t: Tables)
    requires Lower(a) == Lower(b)
    ensures NameChannels(a, t) == NameChannels(b, t)
  {
  }

  /** A name defined last in the base colour file is found under that name in any letter case. */
  lemma ParsedNameFound(lines: seq<string>, i: nat, t: Tables)
    requires i < |lines| && ParseLine(lines[i]).Entry? && ParseColors(lines, "") == Ok(t.base)
    requires forall j :: i < j < |lines| ==> !(ParseLine(lines[j]).Entry? && ParseLine(lines[j]).name == ParseLine(lines[i]).name)
    ensures NameChannels(ParseLine(lines[i]).name, t) == Ok(ParseLine(lines[i]).rgb)
  {
    LastDefinitionWins(lines, "", i);
    var e := ParseLine(lines[i]);
    assert "" + e.name == e.name;
  }

  // ---------------------------------------------------------------------------------
  // The colour object
  // ---------------------------------------------------------------------------------

  /** `Color`: four channels, each clamped into 0..255 on construction. */
  class Color {
    var r: int
    var g: int
    var b: int
    var a: int

    ghost predicate Valid()
      reads this
    {
      InByte(r) && InByte(g) && InByte(b) && InByte(a)
    }

    /** `Color(r, g, b, a)`: every channel goes through `_clamp`. */
    constructor(r: real, g: real, b: real, a: real)
      ensures Valid()
      ensures this.r == Clamp(r) && this.g == Clamp(g) && this.b == Clamp(b) && this.a == Clamp(a)
    {
      this.r := Clamp(r);
      this.g := Clamp(g);
      this.b := Clamp(b);
      this.a := Clamp(a);
    }

    /** `_to_rgba` */
    function ToRgba(): (t: (int, int, int, int))
      reads this
      requires Valid()
      ensures InByte(t.0) && InByte(t.1) && InByte(t.2) && InByte(t.3)
      ensures t == (r, g, b, a)
    {
      (r, g, b, a)
    }

    /** `_change_to_color`: take over all four channels of `other`. */
    method ChangeToColor(other: Color)
      requires other.Valid()
      modifies this
      ensures Valid() && ToRgba() == old(other.ToRgba())
    {
      r, g, b, a := other.r, other.g, other.b, other.a;
    }
  }

  /** `from_rgba`: exactly four values, each clamped. */
  method FromRgba(rgba: seq<real>) returns (res: Result<Color>)
    ensures res.Err? <==> |rgba| != 4
    ensures res.Ok? ==>
              fresh(res.value) && res.value.Valid() &&
              res.value.ToRgba() == (Clamp(rgba[0]), Clamp(rgba[1]), Clamp(rgba[2]), Clamp(rgba[3]))
  {
    if |rgba| != 4 {
      return Err("RGBA must be a tuple of 4 integers");
    }
    var c := new Color(rgba[0], rgba[1], rgba[2], rgba[3]);
    res := Ok(c);
  }

  /** `from_hex`: the decoded channels, clamped, with the given alpha. */
  method FromHex(hexCode: string, alpha: real) returns (res: Result<Color>)
    ensures res.Err? <==> HexChannels(hexCode).Err?
    ensures res.Ok? ==>
              var (r, g, b) := HexChannels(hexCode).value;
              fresh(res.value) && res.value.Valid() &&
              res.value.ToRgba() == (Clamp(r as real), Clamp(g as real), Clamp(b as real), Clamp(alpha))
  {
    var channels := HexChannels(hexCode);
    if channels.Err? {
      return Err(channels.msg);
    }
    var (r, g, b) := channels.value;
    var c := new Color(r as real, g as real, b as real, alpha);
    res := Ok(c);
  }

  /** `from_name`: the table colour, with the given alpha. */
  method FromName(name: string, alpha: real, t: Tables) returns (res: Result<Color>)
    ensures res.Err? <==> !Known(t, Lower(name))
    ensures res.Err? ==> res.msg == NameChannels(name, t).msg
    ensures res.Ok? ==>
              var (r, g, b) := NameChannels(name, t).value;
              fresh(res.value) && res.value.Valid() &&
              res.value.ToRgba() == (Clamp(r as real), Clamp(g as real), Clamp(b as real), Clamp(alpha))
  {
    var channels := NameChannels(name, t);
    if channels.Err? {
      return Err(channels.msg);
    }
    var (r, g, b) := channels.value;
    var c := new Color(r as real, g as real, b as real, alpha);
    res := Ok(c);
  }
}
