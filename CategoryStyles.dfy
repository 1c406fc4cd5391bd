/**
 * Colours of the category tags (`getCategoryStyles`, static/script.js
 * lines 9-39): a fixed palette looked up by the lower-cased, trimmed label,
 * and otherwise a hue taken from a 31-multiplier string hash of the raw label.
 */
module CategoryStyles {
  import opened JsString
  import opened JsNumber

  /** `categoryPalette`: its own properties, which is all the lookup is meant to see. */
  const Palette: map<string, string> := map[
    "l1" := "#3b82f6",
    "defi" := "#a855f7",
    "ai" := "#ca8a04",
    "finance" := "#16a34a",
    "payment" := "#dc2626",
    "rwa" := "#db2777",
    "depin" := "#0ea5e9",
    "infrastructure" := "#6366f1",
    "privacy" := "#14b8a6"
  ]

  /** Every palette colour is a hex colour, so none of them starts with "hsl". */
  lemma PaletteColoursAreHex(key: string)
    requires key in Palette
    ensures |Palette[key]| == 7 && Palette[key][0] == '#'
    ensures !StartsWith(Palette[key], "hsl")
  {
  }

  /** The palette key of a label. */
  function PaletteKey(cat: string): string
  {
    Trim(ToLower(cat))
  }

  /** A bound on how far one step of the hash moves its accumulator. */
  const HashGrowth: int := 0x8011_0000

  /** `hash = cat.charCodeAt(i) + ((hash << 5) - hash)`. */
  function HashStep(hash: int, c: char): (r: int)
    ensures Abs(r) <= Abs(hash) + HashGrowth
  {
    c as int + (ShiftLeft(hash, 5) - hash)
  }

  /** The hash of a label, folded over its characters (code points) from the first to the last. */
  function StringHash(s: string): (r: int)
    ensures Abs(r) <= |s| * HashGrowth
  {
    if s == [] then 0 else HashStep(StringHash(s[..|s| - 1]), s[|s| - 1])
  }

  /**
   * For every label shorter than 2^21 characters the accumulator stays below
   * 2^53, so the double arithmetic of the script is exact there.
   */
  lemma HashIsExactAsDouble(s: string)
    requires |s| < 0x20_0000
    ensures Abs(StringHash(s)) < 0x20_0000_0000_0000
  {
  }

  /** The hash loop of `getCategoryStyles`. */
  method CategoryHash(cat: string) returns (hash: int)
    ensures hash == StringHash(cat)
  {
    hash := 0;
    for i := 0 to |cat|
      invariant hash == StringHash(cat[..i])
    {
      assert cat[..i + 1][..i] == cat[..i];
      hash := cat[i] as int + (ShiftLeft(hash, 5) - hash);
    }
    assert cat[..|cat|] == cat;
  }

  /** `Math.abs(hash) % 360`. */
  function Hue(cat: string): (h: nat)
    ensures h < 360
  {
    Abs(StringHash(cat)) % 360
  }

  /** The template `hsl(${h}, 70%, 40%)`. */
  function HslColor(h: nat): string
  {
    "hsl(" + NatToString(h) + ", 70%, 40%)"
  }

  datatype Style = Style(color: string, bgColor: string)

  /** The low-opacity background: an alpha for an hsl colour, the suffix "1A" for a hex one. */
  function Background(color: string): string
  {
    if StartsWith(color, "hsl") then ReplaceFirst(color, "40%)", "40%, 0.1)") else color + "1A"
  }

  /** What `getCategoryStyles(cat)` returns, once its palette lookup sees own properties only. */
  function CategoryStyle(cat: string): Style
  {
    var key := PaletteKey(cat);
    var color := if key in Palette then Palette[key] else HslColor(Hue(cat));
    Style(color, Background(color))
  }

  /** `getCategoryStyles` with its hash loop. */
  method GetCategoryStyles(cat: string) returns (style: Style)
    ensures style == CategoryStyle(cat)
  {
    var key := PaletteKey(cat);
    var color: string;
    if key in Palette {
      color := Palette[key];
    } else {
      var hash := CategoryHash(cat);
      color := HslColor(Abs(hash) % 360);
    }
    style := Style(color, Background(color));
  }

  /** Only the final character of an hsl colour is a closing parenthesis. */
  lemma HslCloseParenIsLast(h: nat, i: int)
    requires 0 <= i < |HslColor(h)| - 1
    ensures HslColor(h)[i] != ')'
  {
    var d := NatToString(h);
    var s := HslColor(h);
    if 4 <= i < 4 + |d| {
      assert s[i] == d[i - 4];
    } else if i >= 4 + |d| {
      assert s[i] == ", 70%, 40%)"[i - 4 - |d|];
    }
  }

  /** The first occurrence of "40%)" in an hsl colour is its last four characters. */
  lemma HslFirstOccurrenceAtEnd(h: nat)
    ensures OccursAt(HslColor(h), "40%)", |HslColor(h)| - 4)
    ensures forall j :: 0 <= j < |HslColor(h)| - 4 ==> !OccursAt(HslColor(h), "40%)", j)
  {
    var s := HslColor(h);
    assert s[|s| - 4..] == "40%)";
    forall j | 0 <= j < |s| - 4
      ensures !OccursAt(s, "40%)", j)
    {
      assert s[j..j + 4][3] == s[j + 3];
      HslCloseParenIsLast(h, j + 3);
    }
  }

  lemma HslSplice(h: nat)
    ensures HslColor(h)[..|HslColor(h)| - 4] + "40%, 0.1)" + HslColor(h)[|HslColor(h)|..]
            == "hsl(" + NatToString(h) + ", 70%, 40%, 0.1)"
  {
    var s := HslColor(h);
    assert s[..|s| - 4] == "hsl(" + NatToString(h) + ", 70%, ";
    assert s[|s|..] == [];
  }

  /** Replacing "40%)" in an hsl colour touches its end and nothing else. */
  lemma HslBackground(h: nat)
    ensures Background(HslColor(h)) == "hsl(" + NatToString(h) + ", 70%, 40%, 0.1)"
  {
    assert StartsWith(HslColor(h), "hsl");
    HslFirstOccurrenceAtEnd(h);
    HslSplice(h);
  }

  /**
   * A label whose key is in the palette gets the palette colour, whatever
   * its case and surrounding white space, on the "1A" tinted background.
   */
  lemma PaletteHit(cat: string)
    requires PaletteKey(cat) in Palette
    ensures CategoryStyle(cat).color == Palette[PaletteKey(cat)]
    ensures CategoryStyle(cat).bgColor == Palette[PaletteKey(cat)] + "1A"
  {
    PaletteColoursAreHex(PaletteKey(cat));
  }

  /**
   * A label missing from the palette gets the hue of its raw hash, in
   * [0, 360), at saturation 70% and lightness 40%, on the same colour at
   * opacity 0.1.
   */
  lemma PaletteMiss(cat: string)
    requires PaletteKey(cat) !in Palette
    ensures Hue(cat) < 360 && Hue(cat) == Abs(StringHash(cat)) % 360
    ensures CategoryStyle(cat).color == "hsl(" + NatToString(Hue(cat)) + ", 70%, 40%)"
    ensures CategoryStyle(cat).bgColor == "hsl(" + NatToString(Hue(cat)) + ", 70%, 40%, 0.1)"
  {
    HslBackground(Hue(cat));
  }

  /** A key with no letters to lower and no white space to trim is its own palette key. */
  lemma PlainKey(cat: string)
    requires forall i :: 0 <= i < |cat| ==> !IsAsciiUpper(cat[i]) && !IsWhitespace(cat[i])
    ensures PaletteKey(cat) == cat
  {
    assert ToLower(cat) == cat;
    if cat != [] {
      assert TrimStart(cat) == cat;
      assert TrimEnd(cat) == cat;
    }
  }

  lemma KeyOfAb()
    ensures PaletteKey("Ab") == "ab" && PaletteKey("ab") == "ab"
  {
    var lower := ToLower("Ab");
    assert lower[0] == 'a' && lower[1] == 'b';
    assert lower == "ab";
    PlainKey("ab");
  }

  lemma AbNotInPalette()
    ensures "ab" !in Palette
  {
  }

  lemma HueOfUpperAb()
    ensures Hue("Ab") == 313
  {
    assert "Ab"[..1] == "A";
    assert Pow2(5) == 32;
    ShiftLeftNoWrap(65, 5);
    assert StringHash("Ab") == 2113;
  }

  lemma HueOfLowerAb()
    ensures Hue("ab") == 225
  {
    assert "ab"[..1] == "a";
    assert Pow2(5) == 32;
    ShiftLeftNoWrap(97, 5);
    assert StringHash("ab") == 3105;
  }

  lemma HuesPrintDifferently()
    ensures HslColor(313) != HslColor(225)
  {
    assert NatToString(313)[0] == '3';
    assert NatToString(225)[0] == '2';
    assert HslColor(313)[4] != HslColor(225)[4];
  }

  /**
   * The hash reads the raw label: "Ab" and "ab" share the palette key "ab",
   * which the palette lacks, yet their hues differ (313 and 225).
   */
  lemma CaseMattersOnMiss()
    ensures PaletteKey("Ab") == PaletteKey("ab") && PaletteKey("ab") !in Palette
    ensures CategoryStyle("Ab").color != CategoryStyle("ab").color
  {
    KeyOfAb();
    AbNotInPalette();
    HueOfUpperAb();
    HueOfLowerAb();
    HuesPrintDifferently();
  }

  // ---- As written: the palette is a plain object, so the lookup also sees
  // ---- what every object inherits from Object.prototype.

  /**
   * The properties a plain object inherits from Object.prototype in a
   * browser. A palette key is lower-cased, so of these only "constructor"
   * and "__proto__" can ever be looked up.
   */
  const InheritedKeys: set<string> := {
    "constructor", "__proto__", "__defineGetter__", "__defineSetter__",
    "__lookupGetter__", "__lookupSetter__", "hasOwnProperty", "isPrototypeOf",
    "propertyIsEnumerable", "toLocaleString", "toString", "valueOf"
  }

  /** What `categoryPalette[key]` evaluates to. */
  datatype Lookup = Undefined | Text(color: string) | NotAString

  function PaletteLookupAsWritten(key: string): (v: Lookup)
    ensures v.Text? <==> key in Palette
    ensures v.Text? ==> v.color == Palette[key]
    ensures v.NotAString? <==> key !in Palette && key in InheritedKeys
  {
    if key in Palette then Text(Palette[key])
    else if key in InheritedKeys then NotAString
    else Undefined
  }

  /** The outcome of a call: a style, or the TypeError thrown by `color.startsWith`. */
  datatype Outcome = Styled(style: Style) | TypeError

  /** `getCategoryStyles` as written, with the inherited properties visible to the lookup. */
  function CategoryStyleAsWritten(cat: string): Outcome
  {
    match PaletteLookupAsWritten(PaletteKey(cat))
    case Undefined =>
      var color := HslColor(Hue(cat));
      Styled(Style(color, Background(color)))
    case Text(color) =>
      Styled(Style(color, Background(color)))
    case NotAString =>
      // a function or Object.prototype: truthy, and it has no `startsWith`
      TypeError
  }

  /** Away from the inherited keys the code as written agrees with the corrected lookup. */
  lemma AsWrittenAgreesOffInheritedKeys(cat: string)
    requires PaletteKey(cat) !in InheritedKeys
    ensures CategoryStyleAsWritten(cat) == Styled(CategoryStyle(cat))
  {
  }

  lemma ConstructorKey()
    ensures PaletteKey("Constructor") == "constructor"
  {
    assert ToLower("Constructor") == "constructor";
    PlainKey("constructor");
  }

  lemma ConstructorIsInherited()
    ensures PaletteLookupAsWritten("constructor") == NotAString
    ensures "constructor" !in Palette
  {
    assert "constructor" in InheritedKeys;
  }

  /**
   * The label "Constructor" reaches the inherited `constructor` property and
   * throws, where the own-property lookup gives it a hashed hue.
   */
  lemma ConstructorLabelThrows()
    ensures CategoryStyleAsWritten("Constructor") == TypeError
    ensures CategoryStyle("Constructor").color == HslColor(Hue("Constructor"))
  {
    ConstructorKey();
    ConstructorIsInherited();
  }
}
