/**
 * The colour utilities of the extension (utilities.ts): hex-string
 * normalisation, hex <-> RGB conversion, the string helpers used for element
 * ids and display text, the season and name display validators and the
 * six-band HSV describer.
 *
 * Strings are ASCII; the floating-point conversions (HSV, HSL, HCL) are not
 * part of this model.
 */
module Utilities {
  import opened Wrappers
  import opened Text
  import opened Types

  // ---------------------------------------------------------------------------
  // Hex normalisation

  /** The digits of a hex code: the code without one leading '#'. */
  function HexDigits(hexCode: string): string {
    if |hexCode| > 0 && hexCode[0] == '#' then hexCode[1..] else hexCode
  }

  /** getHexLowerNoHash: lower-case, then drop one leading '#'. */
  function HexLowerNoHash(hexCode: string): (r: string)
    ensures r == Lower(HexDigits(hexCode))
    ensures NoUpper(r)
  {
    var hex := Lower(hexCode);
    if |hex| > 0 && hex[0] == '#' then hex[1..] else hex
  }

  /** getHexUpperWithHash: upper-case, then put a '#' in front unless one is there. */
  function HexUpperWithHash(hexCode: string): (r: string)
    ensures |r| > 0 && r[0] == '#'
    ensures r == "#" + Upper(HexDigits(hexCode))
    ensures NoLower(r)
  {
    var hex := Upper(hexCode);
    if |hex| > 0 && hex[0] == '#' then hex else "#" + hex
  }

  /** When '#' can occur only in front, the lower-case form holds no '#' at all. */
  lemma HexLowerNoHashStripsHash(hexCode: string)
    requires forall i :: 1 <= i < |hexCode| ==> hexCode[i] != '#'
    ensures '#' !in HexLowerNoHash(hexCode)
  {
  }

  /** Lower-casing again changes nothing exactly when the code does not begin with "##". */
  lemma HexLowerNoHashIdempotent(hexCode: string)
    ensures HexLowerNoHash(HexLowerNoHash(hexCode)) == HexLowerNoHash(hexCode)
        <==> !(|hexCode| >= 2 && hexCode[0] == '#' && hexCode[1] == '#')
  {
    var r := HexLowerNoHash(hexCode);
    if |hexCode| >= 2 && hexCode[0] == '#' && hexCode[1] == '#' {
      assert r[0] == '#';
      assert |HexLowerNoHash(r)| == |r| - 1;
    } else {
      assert !(|r| > 0 && r[0] == '#');
      assert Lower(r) == r;
    }
  }

  /** Upper-casing with a '#' is idempotent on every string. */
  lemma HexUpperWithHashIdempotent(hexCode: string)
    ensures HexUpperWithHash(HexUpperWithHash(hexCode)) == HexUpperWithHash(hexCode)
  {
    var r := HexUpperWithHash(hexCode);
    assert Upper(HexDigits(r)) == HexDigits(r);
  }

  /** The two normalisations agree on the digits: lower-casing the upper form gives the lower form. */
  lemma {:induction false} LowerOfUpperWithHash(hexCode: string)
    ensures HexLowerNoHash(HexUpperWithHash(hexCode)) == HexLowerNoHash(hexCode)
  {
    var d := HexDigits(hexCode);
    assert HexDigits(HexUpperWithHash(hexCode)) == Upper(d);
    assert forall i :: 0 <= i < |d| ==> ToLowerChar(ToUpperChar(d[i])) == ToLowerChar(d[i]);
  }

  // ---------------------------------------------------------------------------
  // hex -> RGB

  /** RgbData as parseInt leaves it: a component is None where parseInt gives NaN. */
  datatype Rgb = Rgb(r: Option<nat>, g: Option<nat>, b: Option<nat>) {
    predicate IsNumeric() { r.Some? && g.Some? && b.Some? }
  }

  function RgbOf(r: nat, g: nat, b: nat): Rgb { Rgb(Some(r), Some(g), Some(b)) }

  /**
   * parseInt("0x" + c1 + c2): the longest run of hex digits after the prefix;
   * NaN when there is none.
   */
  function ParseHexPair(c1: char, c2: char): (v: Option<nat>)
    ensures v.Some? <==> IsHexDigit(c1)
    ensures v.Some? ==> v.value < 256
    ensures IsHexDigit(c1) && IsHexDigit(c2)
        ==> v == Some(16 * HexDigitValue(c1).value + HexDigitValue(c2).value)
    ensures IsHexDigit(c1) && !IsHexDigit(c2) ==> v == HexDigitValue(c1)
  {
    match HexDigitValue(c1)
    case None => None
    case Some(d1) =>
      match HexDigitValue(c2)
      case None => Some(d1)
      case Some(d2) => Some(16 * d1 + d2)
  }

  predicate AllHexDigits(s: string) { forall i :: 0 <= i < |s| ==> IsHexDigit(s[i]) }

  /**
   * hexToRGB: the '#' is optional; three digits are each doubled (#abc is
   * #aabbcc), six digits are read in pairs, and any other length gives black.
   */
  function HexToRgb(hexCode: string): (c: Rgb)
    ensures c.r.Some? ==> c.r.value < 256
    ensures c.g.Some? ==> c.g.value < 256
    ensures c.b.Some? ==> c.b.value < 256
    ensures var d := HexDigits(hexCode);
      |d| != 3 && |d| != 6 ==> c == RgbOf(0, 0, 0)
    ensures var d := HexDigits(hexCode);
      |d| == 3 ==> c == Rgb(ParseHexPair(d[0], d[0]), ParseHexPair(d[1], d[1]), ParseHexPair(d[2], d[2]))
    ensures var d := HexDigits(hexCode);
      |d| == 6 ==> c == Rgb(ParseHexPair(d[0], d[1]), ParseHexPair(d[2], d[3]), ParseHexPair(d[4], d[5]))
    ensures AllHexDigits(HexDigits(hexCode)) ==> c.IsNumeric()
  {
    var h := if |hexCode| > 0 && hexCode[0] == '#' then hexCode else "#" + hexCode;
    assert h[1..] == HexDigits(hexCode);
    if |h| == 4 then
      Rgb(ParseHexPair(h[1], h[1]), ParseHexPair(h[2], h[2]), ParseHexPair(h[3], h[3]))
    else if |h| == 7 then
      Rgb(ParseHexPair(h[1], h[2]), ParseHexPair(h[3], h[4]), ParseHexPair(h[5], h[6]))
    else
      RgbOf(0, 0, 0)
  }

  /** CSS short form: #rgb denotes the same colour as #rrggbb. */
  lemma ShortHexExpands(x: char, y: char, z: char)
    requires x != '#'
    ensures HexToRgb([x, y, z]) == HexToRgb([x, x, y, y, z, z])
    ensures HexToRgb("#" + [x, y, z]) == HexToRgb([x, y, z])
  {
    assert HexDigits([x, y, z]) == [x, y, z];
    assert HexDigits([x, x, y, y, z, z]) == [x, x, y, y, z, z];
    assert HexDigits("#" + [x, y, z]) == [x, y, z];
  }

  // ---------------------------------------------------------------------------
  // RGB(A) -> hex

  /** A byte as exactly two lower-case hex digits. */
  function Byte(n: nat): (s: string)
    requires n < 256
    ensures |s| == 2 && IsLowerHexDigit(s[0]) && IsLowerHexDigit(s[1])
    ensures ParseHexPair(s[0], s[1]) == Some(n)
  {
    [HexDigit(n / 16), HexDigit(n % 16)]
  }

  /** The source's zero padding: a one-character string gets a '0' in front. */
  function Pad2(s: string): string {
    if |s| == 1 then "0" + s else s
  }

  /** toString(16) followed by the padding gives exactly two digits for a byte. */
  lemma PaddedHexIsByte(n: nat)
    requires n < 256
    ensures Pad2(IntToHex(n)) == Byte(n)
  {
    if n < 16 {
      assert IntToHex(n) == [HexDigit(n)];
    }
  }

  /** Math.round: halves round up. */
  function Round(x: real): int {
    (x + 0.5).Floor
  }

  /** JavaScript truthiness of an optional number (NaN is not modelled). */
  predicate Truthy(a: Option<real>) {
    a.Some? && a.value != 0.0
  }

  /** The alpha suffix, round(a * 255) in hex, padded. */
  function AlphaHex(a: real): string {
    Pad2(IntToHex(Round(a * 255.0)))
  }

  /**
   * RGBAtoHex: '#', then each component in hex padded to two digits, then the
   * alpha byte only when `a` is truthy (so an alpha of 0 is never written).
   */
  function RgbaToHex(r: int, g: int, b: int, a: Option<real>): (hex: string)
    ensures 0 <= r < 256 && 0 <= g < 256 && 0 <= b < 256 ==>
      && |hex| >= 7
      && hex[..7] == "#" + Byte(r) + Byte(g) + Byte(b)
      && (|hex| > 7 <==> Truthy(a))
      && (Truthy(a) ==> hex[7..] == AlphaHex(a.value))
  {
    var rHex := Pad2(IntToHex(r));
    var gHex := Pad2(IntToHex(g));
    var bHex := Pad2(IntToHex(b));
    var aHex := if Truthy(a) then AlphaHex(a.value) else "";
    var hex := "#" + rHex + gHex + bHex;
    if 0 <= r < 256 && 0 <= g < 256 && 0 <= b < 256 then
      PaddedHexIsByte(r);
      PaddedHexIsByte(g);
      PaddedHexIsByte(b);
      assert (hex + aHex)[..7] == hex;
      hex + aHex
    else
      hex + aHex
  }

  /** Round trip: reading back the hex written for a colour gives that colour. */
  lemma RgbHexRoundTrip(r: nat, g: nat, b: nat, a: Option<real>)
    requires r < 256 && g < 256 && b < 256
    requires !Truthy(a)
    ensures HexToRgb(RgbaToHex(r, g, b, a)) == RgbOf(r, g, b)
  {
    assert RgbaToHex(r, g, b, a) == RgbaToHex(r, g, b, None);
    OpaqueHexIsBytes(r, g, b);
    BytesReadBack(r, g, b);
  }

  /** '#' and three bytes in hex parse back as those three bytes. */
  lemma BytesReadBack(r: nat, g: nat, b: nat)
    requires r < 256 && g < 256 && b < 256
    ensures HexToRgb("#" + Byte(r) + Byte(g) + Byte(b)) == RgbOf(r, g, b)
  {
    var hex := "#" + Byte(r) + Byte(g) + Byte(b);
    var d := HexDigits(hex);
    assert d == Byte(r) + Byte(g) + Byte(b);
    assert [d[0], d[1]] == Byte(r) && [d[2], d[3]] == Byte(g) && [d[4], d[5]] == Byte(b);
  }

  /** The other round trip: a canonical six-digit key is written back unchanged. */
  lemma HexRgbRoundTrip(key: string)
    requires |key| == 6 && forall i :: 0 <= i < 6 ==> IsLowerHexDigit(key[i])
    ensures var c := HexToRgb(key);
      c.IsNumeric() && RgbaToHex(c.r.value, c.g.value, c.b.value, None) == "#" + key
  {
    ByteOfDigits(key[0], key[1]);
    ByteOfDigits(key[2], key[3]);
    ByteOfDigits(key[4], key[5]);
    var n0 := ParseHexPair(key[0], key[1]).value;
    var n1 := ParseHexPair(key[2], key[3]).value;
    var n2 := ParseHexPair(key[4], key[5]).value;
    SixDigitHexToRgb(key);
    assert HexToRgb(key) == RgbOf(n0, n1, n2);
    OpaqueHexIsBytes(n0, n1, n2);
    KeyIsThreeBytes(key, n0, n1, n2);
  }

  lemma KeyIsThreeBytes(key: string, n0: nat, n1: nat, n2: nat)
    requires |key| == 6 && n0 < 256 && n1 < 256 && n2 < 256
    requires Byte(n0) == [key[0], key[1]] && Byte(n1) == [key[2], key[3]] && Byte(n2) == [key[4], key[5]]
    ensures "#" + Byte(n0) + Byte(n1) + Byte(n2) == "#" + key
  {
    assert key == [key[0], key[1]] + [key[2], key[3]] + [key[4], key[5]];
  }

  lemma SixDigitHexToRgb(key: string)
    requires |key| == 6 && key[0] != '#'
    ensures HexToRgb(key) == Rgb(ParseHexPair(key[0], key[1]), ParseHexPair(key[2], key[3]), ParseHexPair(key[4], key[5]))
  {
    assert HexDigits(key) == key;
  }

  /** Without alpha the hex of a colour is exactly '#' and three bytes. */
  lemma OpaqueHexIsBytes(r: nat, g: nat, b: nat)
    requires r < 256 && g < 256 && b < 256
    ensures RgbaToHex(r, g, b, None) == "#" + Byte(r) + Byte(g) + Byte(b)
  {
    var hex := RgbaToHex(r, g, b, None);
    assert |hex| == 7;
    assert hex == hex[..7];
  }

  lemma ByteOfDigits(x: char, y: char)
    requires IsLowerHexDigit(x) && IsLowerHexDigit(y)
    ensures ParseHexPair(x, y).Some? && Byte(ParseHexPair(x, y).value) == [x, y]
  {
    var n := ParseHexPair(x, y).value;
    assert n / 16 == HexDigitValue(x).value;
    assert n % 16 == HexDigitValue(y).value;
  }

  // ---------------------------------------------------------------------------
  // String helpers

  /** capitalizeFirstLetter: the first character upper-cased, the rest kept. */
  function CapitalizeFirstLetter(s: string): (r: string)
    ensures |r| == |s|
    ensures |s| > 0 ==> r[0] == ToUpperChar(s[0]) && r[1..] == s[1..]
  {
    if s == [] then [] else [ToUpperChar(s[0])] + s[1..]
  }

  /**
   * str.replace(/([a-z])([A-Z])/g, "$1-$2"): the global scan consumes each
   * matched pair and resumes after it.
   */
  function InsertDashes(s: string): string {
    if |s| < 2 then s
    else if IsLower(s[0]) && IsUpper(s[1]) then [s[0], '-', s[1]] + InsertDashes(s[2..])
    else [s[0]] + InsertDashes(s[1..])
  }

  /** A '-' between every adjacent lower-case/upper-case pair, pairs examined one by one. */
  function DashAtEveryBoundary(s: string): string {
    if |s| < 2 then s
    else [s[0]] + (if IsLower(s[0]) && IsUpper(s[1]) then "-" else "") + DashAtEveryBoundary(s[1..])
  }

  /** kebabize: dashes at the camel-case boundaries, then lower-case. */
  function Kebabize(s: string): (r: string)
    ensures NoUpper(r)
  {
    Lower(InsertDashes(s))
  }

  /** The regular expression's non-overlapping scan still finds every boundary. */
  lemma {:induction false} InsertDashesAtEveryBoundary(s: string)
    ensures InsertDashes(s) == DashAtEveryBoundary(s)
  {
    if |s| < 2 {
    } else if IsLower(s[0]) && IsUpper(s[1]) {
      InsertDashesAtEveryBoundary(s[2..]);
      assert s[1..][1..] == s[2..];
      if |s| >= 3 {
        assert DashAtEveryBoundary(s[1..]) == [s[1]] + DashAtEveryBoundary(s[2..]);
      }
    } else {
      InsertDashesAtEveryBoundary(s[1..]);
    }
  }

  /** The string with every '-' removed. */
  function WithoutDashes(s: string): (r: string)
    ensures forall i :: 0 <= i < |r| ==> r[i] != '-'
  {
    if s == [] then []
    else
      var rest := WithoutDashes(s[1..]);
      if s[0] == '-' then rest else [s[0]] + rest
  }

  lemma {:induction false} WithoutDashesConcat(a: string, b: string)
    ensures WithoutDashes(a + b) == WithoutDashes(a) + WithoutDashes(b)
  {
    if a == [] {
      assert a + b == b;
    } else {
      assert (a + b)[1..] == a[1..] + b;
      WithoutDashesConcat(a[1..], b);
    }
  }

  lemma {:induction false} WithoutDashesLower(s: string)
    ensures WithoutDashes(Lower(s)) == Lower(WithoutDashes(s))
  {
    if s != [] {
      assert Lower(s) == [ToLowerChar(s[0])] + Lower(s[1..]);
      WithoutDashesConcat([ToLowerChar(s[0])], Lower(s[1..]));
      WithoutDashesLower(s[1..]);
      assert Lower(s[1..]) == Lower(s)[1..];
      assert Lower(WithoutDashes(s)) == Lower(if s[0] == '-' then "" else [s[0]]) + Lower(WithoutDashes(s[1..])) by {
        LowerConcat(if s[0] == '-' then "" else [s[0]], WithoutDashes(s[1..]));
      }
    }
  }

  lemma LowerConcat(a: string, b: string)
    ensures Lower(a + b) == Lower(a) + Lower(b)
  {
  }

  lemma {:induction false} DashesOnlyAdded(s: string)
    ensures WithoutDashes(DashAtEveryBoundary(s)) == WithoutDashes(s)
  {
    if |s| >= 2 {
      var mid := if IsLower(s[0]) && IsUpper(s[1]) then "-" else "";
      assert DashAtEveryBoundary(s) == [s[0]] + (mid + DashAtEveryBoundary(s[1..]));
      WithoutDashesConcat([s[0]], mid + DashAtEveryBoundary(s[1..]));
      WithoutDashesConcat(mid, DashAtEveryBoundary(s[1..]));
      DashesOnlyAdded(s[1..]);
      assert s == [s[0]] + s[1..];
      WithoutDashesConcat([s[0]], s[1..]);
    }
  }

  /**
   * Kebabize adds dashes and lower-cases, nothing more: removing the dashes
   * again leaves the lower-cased input without its own dashes.
   */
  lemma KebabizeOnlyAddsDashes(s: string)
    ensures WithoutDashes(Kebabize(s)) == Lower(WithoutDashes(s))
  {
    InsertDashesAtEveryBoundary(s);
    WithoutDashesLower(InsertDashes(s));
    DashesOnlyAdded(s);
  }

  /** So two dash-free names that differ other than in case get different kebab ids. */
  lemma KebabizeInjectiveUpToCase(a: string, b: string)
    requires '-' !in a && '-' !in b
    requires Kebabize(a) == Kebabize(b)
    ensures Lower(a) == Lower(b)
  {
    KebabizeOnlyAddsDashes(a);
    KebabizeOnlyAddsDashes(b);
    WithoutDashesNoop(a);
    WithoutDashesNoop(b);
  }

  lemma {:induction false} WithoutDashesNoop(s: string)
    requires '-' !in s
    ensures WithoutDashes(s) == s
  {
    if s != [] {
      assert s[0] in s;
      assert forall c :: c in s[1..] ==> c in s;
      WithoutDashesNoop(s[1..]);
    }
  }

  /** str.split(" "): never empty, and no piece holds a space. */
  function Split(s: string): (ws: seq<string>)
    ensures |ws| >= 1
    ensures forall i :: 0 <= i < |ws| ==> ' ' !in ws[i]
  {
    if s == [] then [""]
    else
      var rest := Split(s[1..]);
      if s[0] == ' ' then [""] + rest
      else [[s[0]] + rest[0]] + rest[1..]
  }

  /** Every piece after the first, each preceded by a space. */
  function JoinTail(ws: seq<string>): string {
    if ws == [] then "" else " " + ws[0] + JoinTail(ws[1..])
  }

  /** words.join(" ") for the non-empty arrays that split returns. */
  function Join(ws: seq<string>): string
    requires |ws| >= 1
  {
    ws[0] + JoinTail(ws[1..])
  }

  /** Joining the pieces of a split gives the string back. */
  lemma {:induction false} JoinSplit(s: string)
    ensures Join(Split(s)) == s
  {
    if s != [] {
      JoinSplit(s[1..]);
      var rest := Split(s[1..]);
      if s[0] == ' ' {
        assert Split(s)[1..] == rest;
      } else {
        assert Split(s)[1..] == rest[1..];
      }
    }
  }

  function CapitalizeAll(ws: seq<string>): (r: seq<string>)
    ensures |r| == |ws|
    ensures forall i :: 0 <= i < |ws| ==> r[i] == CapitalizeFirstLetter(ws[i])
  {
    if ws == [] then [] else [CapitalizeFirstLetter(ws[0])] + CapitalizeAll(ws[1..])
  }

  /**
   * The reference meaning of title case: a character is upper-cased when it
   * starts the string or follows a space, and kept otherwise.
   */
  function CapitalizeAfterSpaces(s: string, atWordStart: bool): (r: string)
    ensures |r| == |s|
  {
    if s == [] then []
    else [if atWordStart then ToUpperChar(s[0]) else s[0]] + CapitalizeAfterSpaces(s[1..], s[0] == ' ')
  }

  lemma {:induction false} CapitalizeAfterSpacesAt(s: string, atWordStart: bool, i: nat)
    requires i < |s|
    ensures CapitalizeAfterSpaces(s, atWordStart)[i]
      == if (i == 0 && atWordStart) || (i > 0 && s[i - 1] == ' ') then ToUpperChar(s[i]) else s[i]
  {
    if i > 0 {
      CapitalizeAfterSpacesAt(s[1..], s[0] == ' ', i - 1);
    }
  }

  /** Capitalising the pieces of a split and joining them is the reference meaning. */
  lemma {:induction false} CapitalizedWords(s: string, atWordStart: bool)
    ensures var ws := Split(s);
      (if atWordStart then CapitalizeFirstLetter(ws[0]) else ws[0]) + JoinTail(CapitalizeAll(ws[1..]))
        == CapitalizeAfterSpaces(s, atWordStart)
  {
    if s != [] {
      var rest := Split(s[1..]);
      if s[0] == ' ' {
        CapitalizedWords(s[1..], true);
        assert Split(s)[1..] == rest;
        assert CapitalizeAll(rest) == [CapitalizeFirstLetter(rest[0])] + CapitalizeAll(rest[1..]);
      } else {
        CapitalizedWords(s[1..], false);
        assert Split(s)[1..] == rest[1..];
      }
    }
  }

  /** Characters the case mapping cannot turn into or out of a space. */
  lemma SpacesSurviveCase(c: char)
    ensures ToLowerChar(c) == ' ' <==> c == ' '
    ensures ToUpperChar(c) == ' ' <==> c == ' '
  {
  }

  /** Strings with spaces in the same places split into the same number of words. */
  lemma {:induction false} SameSpacesSameWordCount(a: string, b: string)
    requires |a| == |b|
    requires forall i :: 0 <= i < |a| ==> (a[i] == ' ' <==> b[i] == ' ')
    ensures |Split(a)| == |Split(b)|
  {
    if a != [] {
      SameSpacesSameWordCount(a[1..], b[1..]);
    }
  }

  /**
   * titleCase: lower-case, split on ' ', capitalise each word in place, join.
   * The result is the lower-cased input with each word's first letter
   * upper-cased, and it has as many words as the input.
   */
  method TitleCase(str: string) returns (r: string)
    ensures r == CapitalizeAfterSpaces(Lower(str), true)
    ensures |r| == |str|
    ensures forall i :: 0 <= i < |str| ==>
      r[i] == if i == 0 || str[i - 1] == ' ' then ToUpperChar(ToLowerChar(str[i])) else ToLowerChar(str[i])
    ensures |Split(r)| == |Split(str)|
  {
    var original := Split(Lower(str));
    var words := new string[|original|](i requires 0 <= i < |original| => original[i]);
    for i := 0 to words.Length
      invariant forall j :: 0 <= j < i ==> words[j] == CapitalizeFirstLetter(original[j])
      invariant forall j :: i <= j < words.Length ==> words[j] == original[j]
    {
      words[i] := CapitalizeFirstLetter(words[i]);
    }
    CapitalizedEach(original, words[..]);
    r := Join(words[..]);
    JoinCapitalizedWords(Lower(str));
    TitleCasePointwise(str);
  }

  lemma CapitalizedEach(ws: seq<string>, cs: seq<string>)
    requires |cs| == |ws|
    requires forall j :: 0 <= j < |ws| ==> cs[j] == CapitalizeFirstLetter(ws[j])
    ensures cs == CapitalizeAll(ws)
  {
  }

  /** Capitalising every piece of a split and joining them is the reference meaning. */
  lemma JoinCapitalizedWords(s: string)
    ensures Join(CapitalizeAll(Split(s))) == CapitalizeAfterSpaces(s, true)
  {
    var ws := Split(s);
    CapitalizedWords(s, true);
    assert CapitalizeAll(ws)[1..] == CapitalizeAll(ws[1..]);
  }

  /** Title case character by character, and the word count it keeps. */
  lemma TitleCasePointwise(str: string)
    ensures var r := CapitalizeAfterSpaces(Lower(str), true);
      && |r| == |str|
      && (forall i :: 0 <= i < |str| ==>
            r[i] == if i == 0 || str[i - 1] == ' ' then ToUpperChar(ToLowerChar(str[i])) else ToLowerChar(str[i]))
      && |Split(r)| == |Split(str)|
  {
    var r := CapitalizeAfterSpaces(Lower(str), true);
    forall i | 0 <= i < |str|
      ensures r[i] == if i == 0 || str[i - 1] == ' ' then ToUpperChar(ToLowerChar(str[i])) else ToLowerChar(str[i])
      ensures r[i] == ' ' <==> str[i] == ' '
    {
      CapitalizeAfterSpacesAt(Lower(str), true, i);
      if i > 0 {
        SpacesSurviveCase(str[i - 1]);
      }
      SpacesSurviveCase(str[i]);
      SpacesSurviveCase(ToLowerChar(str[i]));
    }
    SameSpacesSameWordCount(r, str);
  }

  // ---------------------------------------------------------------------------
  // Display text

  /** The link to a name source's reference page. */
  function SourceLink(source: ColorDataSource): string {
    "<a href=\"" + SourceUrl(source) + "\" target=\"_blank\">" + SourceName(source) + "</a>"
  }

  /** W3C and X11 names are digital colour spaces; the others are approximations. */
  predicate IsDigitalSource(source: ColorDataSource) {
    source == W3C || source == X11
  }

  /**
   * getColorNameDisplay: "name [link number]", the number only when given,
   * then an asterisk for a source that is not a digital colour space.
   */
  function ColorNameDisplay(name: string, source: ColorDataSource, number: Option<string>): (r: string)
    ensures var k := |name + " [" + SourceLink(source)|;
      && k < |r|
      && r[..k] == name + " [" + SourceLink(source)
      && (number.Some? <==> r[k] == ' ')
      && (number.Some? ==> k + 1 + |number.value| < |r| && r[k + 1..k + 1 + |number.value|] == number.value)
    ensures r[|r| - 1] == '*' <==> !IsDigitalSource(source)
    ensures r[|r| - 1] == ']' <==> IsDigitalSource(source)
  {
    Bracketed(name + " [" + SourceLink(source), number, !IsDigitalSource(source))
  }

  /** The tail of a name display after "name [link": the number, ']' and the asterisk. */
  function Bracketed(head: string, number: Option<string>, starred: bool): (r: string)
    ensures var k := |head|;
      && k < |r|
      && r[..k] == head
      && (number.Some? <==> r[k] == ' ')
      && (number.Some? ==> k + 1 + |number.value| < |r| && r[k + 1..k + 1 + |number.value|] == number.value)
    ensures r[|r| - 1] == '*' <==> starred
    ensures r[|r| - 1] == ']' <==> !starred
  {
    var numberPart := if number.Some? then " " + number.value else "";
    var tail := if starred then "]*" else "]";
    var r := head + numberPart + tail;
    var k := |head|;
    assert r[..k] == head;
    assert r[k..] == numberPart + tail;
    assert number.Some? ==> r[k + 1..k + 1 + |number.value|] == r[k..][1..1 + |number.value|];
    assert r[|r| - 1] == tail[|tail| - 1];
    r
  }

  /** The validator's acceptance rule, stated over the typed unions. */
  ghost predicate ValidSeasonArgs(season: string, seasonType: string, colorType: Option<string>) {
    && (exists s: Season, t: SeasonType ::
          season == SeasonName(s) && seasonType == SeasonTypeName(t) && t in AllowedTypes(s))
    && (colorType.None? || exists c: ColorType :: colorType.value == ColorTypeName(c))
  }

  /**
   * getColorSeasonDisplay: nothing unless the season is one of the four, the
   * subtype is one that season admits and the colour type, when given, is
   * fn, ca or m; otherwise "Subtype Season", then " [CT]" for a colour type.
   */
  function ColorSeasonDisplay(season: string, seasonType: string, colorType: Option<string>): (r: Option<string>)
    ensures r.Some? <==> ValidSeasonArgs(season, seasonType, colorType)
  {
    var s := ParseSeason(season);
    var t := ParseSeasonType(seasonType);
    if s.None? then None
    else if t.None? || t.value !in AllowedTypes(s.value) then None
    else if colorType.Some? && ParseColorType(colorType.value).None? then None
    else
      var display := CapitalizeFirstLetter(seasonType) + " " + CapitalizeFirstLetter(season);
      Some(if colorType.Some? then display + " [" + Upper(colorType.value) + "]" else display)
  }

  /** The strings a classification is passed to the validator as. */
  function ArgsOf(info: SeasonInfo): (string, string, Option<string>) {
    (SeasonName(info.season), SeasonTypeName(info.seasonType),
     if info.colorType.Some? then Some(ColorTypeName(info.colorType.value)) else None)
  }

  /** The label of a classification: "Subtype Season", then " [CT]" when it has a colour type. */
  function SeasonLabel(info: SeasonInfo): string {
    CapitalizeFirstLetter(SeasonTypeName(info.seasonType)) + " " + CapitalizeFirstLetter(SeasonName(info.season))
      + ColorTypeSuffix(info.colorType)
  }

  function ColorTypeSuffix(c: Option<ColorType>): (k: string)
    ensures k == [] || k[0] == ' '
  {
    if c.Some? then " [" + Upper(ColorTypeName(c.value)) + "]" else ""
  }

  lemma ColorTypeSuffixInjective(c: Option<ColorType>, c': Option<ColorType>)
    requires ColorTypeSuffix(c) == ColorTypeSuffix(c')
    ensures c == c'
  {
    if c.Some? && c'.Some? {
      var k := ColorTypeSuffix(c);
      assert Upper(ColorTypeName(c.value)) == k[2..|k| - 1] == Upper(ColorTypeName(c'.value));
      assert ColorTypeName(c.value)[0] == ColorTypeName(c'.value)[0];
    }
  }

  /** Every classification whose subtype its season admits is displayed. */
  lemma WellTypedSeasonInfoDisplays(info: SeasonInfo)
    requires info.seasonType in AllowedTypes(info.season)
    ensures ColorSeasonDisplay(ArgsOf(info).0, ArgsOf(info).1, ArgsOf(info).2) == Some(SeasonLabel(info))
  {
    var (season, seasonType, colorType) := ArgsOf(info);
    assert ParseSeason(season) == Some(info.season);
    assert ParseSeasonType(seasonType) == Some(info.seasonType);
    var display := CapitalizeFirstLetter(seasonType) + " " + CapitalizeFirstLetter(season);
    if info.colorType.Some? {
      assert ParseColorType(colorType.value) == Some(info.colorType.value);
      var u := Upper(colorType.value);
      assert display + " [" + u + "]" == display + (" [" + u + "]");
    } else {
      assert display + ColorTypeSuffix(None) == display;
    }
  }

  predicate NoSpace(s: string) { forall i :: 0 <= i < |s| ==> s[i] != ' ' }

  /** The text before the first space. */
  function FirstWord(s: string): string {
    if s == [] || s[0] == ' ' then [] else [s[0]] + FirstWord(s[1..])
  }

  lemma {:induction false} FirstWordOf(x: string, y: string)
    requires NoSpace(x)
    requires y == [] || y[0] == ' '
    ensures FirstWord(x + y) == x
  {
    if x == [] {
      assert x + y == y;
    } else {
      assert (x + y)[1..] == x[1..] + y;
      FirstWordOf(x[1..], y);
    }
  }

  /** A word followed by nothing or by a space is determined by the whole string. */
  lemma SplitAtFirstSpace(x: string, y: string, x': string, y': string)
    requires NoSpace(x) && NoSpace(x')
    requires y == [] || y[0] == ' '
    requires y' == [] || y'[0] == ' '
    requires x + y == x' + y'
    ensures x == x' && y == y'
  {
    FirstWordOf(x, y);
    FirstWordOf(x', y');
    assert y == (x + y)[|x|..];
    assert y' == (x' + y')[|x'|..];
  }

  /** The capitalised season names have no space and tell the seasons apart. */
  lemma CapitalizedSeasonNamesDiffer(s: Season, s': Season)
    ensures var a := CapitalizeFirstLetter(SeasonName(s));
      NoSpace(a) && (a == CapitalizeFirstLetter(SeasonName(s')) ==> s == s')
  {
    var a := CapitalizeFirstLetter(SeasonName(s));
    var b := CapitalizeFirstLetter(SeasonName(s'));
    if a == b {
      assert SeasonName(s)[1..] == a[1..] == b[1..] == SeasonName(s')[1..];
    }
  }

  /** The capitalised subtype names have no space and tell the subtypes apart. */
  lemma CapitalizedTypeNamesDiffer(t: SeasonType, t': SeasonType)
    ensures var a := CapitalizeFirstLetter(SeasonTypeName(t));
      NoSpace(a) && (a == CapitalizeFirstLetter(SeasonTypeName(t')) ==> t == t')
  {
    var a := CapitalizeFirstLetter(SeasonTypeName(t));
    var b := CapitalizeFirstLetter(SeasonTypeName(t'));
    if a == b {
      assert SeasonTypeName(t)[1..] == a[1..] == b[1..] == SeasonTypeName(t')[1..];
    }
  }

  /** Different classifications are never shown with the same label. */
  lemma SeasonLabelInjective(info: SeasonInfo, info': SeasonInfo)
    requires SeasonLabel(info) == SeasonLabel(info')
    ensures info == info'
  {
    var t := CapitalizeFirstLetter(SeasonTypeName(info.seasonType));
    var t' := CapitalizeFirstLetter(SeasonTypeName(info'.seasonType));
    var n := CapitalizeFirstLetter(SeasonName(info.season));
    var n' := CapitalizeFirstLetter(SeasonName(info'.season));
    var k := ColorTypeSuffix(info.colorType);
    var k' := ColorTypeSuffix(info'.colorType);
    CapitalizedSeasonNamesDiffer(info.season, info'.season);
    CapitalizedSeasonNamesDiffer(info'.season, info.season);
    CapitalizedTypeNamesDiffer(info.seasonType, info'.seasonType);
    CapitalizedTypeNamesDiffer(info'.seasonType, info.seasonType);
    ThreePartLabel(t, n, k, t', n', k');
    ColorTypeSuffixInjective(info.colorType, info'.colorType);
  }

  /** "a b" followed by nothing or by a space-led suffix splits back into its parts. */
  lemma ThreePartLabel(a: string, b: string, c: string, a': string, b': string, c': string)
    requires NoSpace(a) && NoSpace(b) && NoSpace(a') && NoSpace(b')
    requires (c == [] || c[0] == ' ') && (c' == [] || c'[0] == ' ')
    requires a + " " + b + c == a' + " " + b' + c'
    ensures a == a' && b == b' && c == c'
  {
    assert a + " " + b + c == a + (" " + b + c);
    assert a' + " " + b' + c' == a' + (" " + b' + c');
    SplitAtFirstSpace(a, " " + b + c, a', " " + b' + c');
    assert b + c == (" " + b + c)[1..] == (" " + b' + c')[1..] == b' + c';
    SplitAtFirstSpace(b, c, b', c');
  }

  /** Two rejections: a subtype winter does not admit, and an unknown colour type. */
  lemma SeasonDisplayRejections()
    ensures ColorSeasonDisplay("winter", "soft", None) == None
    ensures ColorSeasonDisplay("summer", "soft", Some("x")) == None
  {
  }

  // ---------------------------------------------------------------------------
  // HSV description

  function Abs(x: real): real {
    if x < 0.0 then -x else x
  }

  /**
   * The two poles of an HSV component, chosen after lower-casing its name;
   * an unknown component leaves both undefined.
   */
  function Poles(hsvType: string): (string, string) {
    var t := Lower(hsvType);
    if t == "h" then ("cool", "warm")
    else if t == "s" then ("muted", "saturated")
    else if t == "v" then ("dark", "light")
    else ("undefined", "undefined")
  }

  /**
   * The percentage that is banded: for the exact name "h" the hue wheel is
   * folded so that blue (240) is 0% and yellow (60) is 100%; any other name,
   * "H" included, uses the value as it is.
   */
  function Percentage(hsvType: string, value: real): real {
    if hsvType == "h" then Abs(value - 240.0) / 180.0 * 100.0 else value
  }

  /** The lower bounds of bands 1 to 5; band 0 is everything below 20. */
  const BandFloors: seq<real> := [20.0, 40.0, 50.0, 60.0, 80.0]

  ghost predicate InBand(p: real, k: nat) {
    k < 6 && (k == 0 || BandFloors[k - 1] <= p) && (k == 5 || p < BandFloors[k])
  }

  /** The band of a percentage: the six bands partition the numbers. */
  function Band(p: real): (k: nat)
    ensures forall j :: InBand(p, j) <==> j == k
  {
    if p < 20.0 then 0
    else if p >= 20.0 && p < 40.0 then 1
    else if p >= 40.0 && p < 50.0 then 2
    else if p >= 50.0 && p < 60.0 then 3
    else if p >= 60.0 && p < 80.0 then 4
    else 5
  }

  function BandText(k: nat, pole1: string, pole2: string): string
    requires k < 6
  {
    match k
    case 0 => "very " + pole1
    case 1 => pole1
    case 2 => "mildly " + pole1
    case 3 => "mildly " + pole2
    case 4 => pole2
    case 5 => "very " + pole2
  }

  predicate EndsWith(s: string, suffix: string) {
    |suffix| <= |s| && s[|s| - |suffix|..] == suffix
  }

  /** A pole word carries no qualifier of its own. */
  predicate PlainWord(w: string) {
    !StartsWith(w, "very ") && !StartsWith(w, "mildly ")
  }

  lemma PolesArePlain(hsvType: string)
    ensures PlainWord(Poles(hsvType).0) && PlainWord(Poles(hsvType).1)
  {
    var (w1, w2) := Poles(hsvType);
    UnqualifiedWord(w1);
    UnqualifiedWord(w2);
  }

  /** A word that starts with neither 'v' nor a long enough 'm' word has no qualifier. */
  lemma UnqualifiedWord(w: string)
    requires |w| > 0 && w[0] != 'v' && (w[0] != 'm' || |w| < 7)
    ensures PlainWord(w)
  {
    if |w| >= 5 {
      assert w[..5][0] == w[0];
    }
    if |w| >= 7 {
      assert w[..7][0] == w[0];
    }
  }

  /** The wording of each band: which pole it names and which qualifier it uses. */
  lemma BandTextShape(k: nat, w1: string, w2: string)
    requires k < 6 && PlainWord(w1) && PlainWord(w2)
    ensures var m := BandText(k, w1, w2);
      && EndsWith(m, if k < 3 then w1 else w2)
      && (StartsWith(m, "very ") <==> k == 0 || k == 5)
      && (StartsWith(m, "mildly ") <==> k == 2 || k == 3)
  {
    var m := BandText(k, w1, w2);
    var w := if k < 3 then w1 else w2;
    if k == 0 || k == 5 {
      assert m == "very " + w;
      assert m[|m| - |w|..] == w;
      assert m[..5] == "very ";
      assert m[0] == 'v';
    } else if k == 2 || k == 3 {
      assert m == "mildly " + w;
      assert m[|m| - |w|..] == w;
      assert m[..7] == "mildly ";
      assert m[0] == 'm';
    } else {
      assert m == w;
    }
  }

  /**
   * getHSVdescription: " (...)" naming the first pole below 50% and the
   * second from 50% on, "very" below 20% and from 80%, "mildly" from 40% to
   * below 60%.
   */
  function HsvDescription(hsvType: string, value: real): (r: string)
    ensures |r| >= 3 && r[..2] == " (" && r[|r| - 1] == ')'
    ensures var p := Percentage(hsvType, value);
      var m := r[2..|r| - 1];
      && EndsWith(m, if p < 50.0 then Poles(hsvType).0 else Poles(hsvType).1)
      && (StartsWith(m, "very ") <==> p < 20.0 || p >= 80.0)
      && (StartsWith(m, "mildly ") <==> 40.0 <= p < 60.0)
  {
    var (pole1, pole2) := Poles(hsvType);
    var p := Percentage(hsvType, value);
    var k := Band(p);
    var m := BandText(k, pole1, pole2);
    assert InBand(p, k);
    PolesArePlain(hsvType);
    BandTextShape(k, pole1, pole2);
    assert m == (" (" + m + ")")[2..|" (" + m + ")"| - 1];
    " (" + m + ")"
  }

  /** Pure blue is the coolest hue. */
  lemma BlueIsVeryCool()
    ensures HsvDescription("h", 240.0) == " (very cool)"
  {
    assert Lower("h") == "h";
    assert Percentage("h", 240.0) == 0.0;
  }

  /** Pure yellow is the warmest hue. */
  lemma YellowIsVeryWarm()
    ensures HsvDescription("h", 60.0) == " (very warm)"
  {
    assert Lower("h") == "h";
    assert Poles("h") == ("cool", "warm");
    assert Percentage("h", 60.0) == 100.0;
    assert Band(100.0) == 5;
  }

  /** An upper-case "H" gets the hue poles but not the folding: blue reads as very warm. */
  lemma UpperCaseHueIsNotFolded()
    ensures HsvDescription("H", 240.0) == " (very warm)"
  {
    assert Lower("H") == "h";
    assert Poles("H") == ("cool", "warm");
    assert Percentage("H", 240.0) == 240.0;
    assert Band(240.0) == 5;
  }
}
