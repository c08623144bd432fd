/**
 * The string unions of the extension's type declarations as datatypes, each
 * with the string that stands for it at run time and a parser back from that
 * string.
 */
module Types {
  import opened Wrappers

  /** Where a colour name comes from. */
  datatype ColorDataSource = W3C | X11 | Crayola | RAL | Pantone

  /** The reference page linked for each name source. */
  function SourceUrl(s: ColorDataSource): string {
    match s
    case Crayola => "https://www.w3schools.com/colors/colors_crayola.asp"
    case X11 => "https://en.wikipedia.org/wiki/X11_color_names"
    case W3C => "https://www.w3schools.com/colors/colors_names.asp"
    case RAL => "https://www.w3schools.com/colors/colors_ral.asp"
    case Pantone => "https://en.wikipedia.org/wiki/Pantone"
  }

  function SourceName(s: ColorDataSource): string {
    match s
    case W3C => "W3C"
    case X11 => "X11"
    case Crayola => "Crayola"
    case RAL => "RAL"
    case Pantone => "Pantone"
  }

  datatype Season = Winter | Spring | Summer | Autumn

  /** The subtypes of all seasons together (the union of the per-season unions). */
  datatype SeasonType = Dark | True | Bright | Light | Soft

  /** fn: fashion neutral, ca: complementary/accent, m: metal. */
  datatype ColorType = FN | CA | M

  function SeasonName(s: Season): string {
    match s
    case Winter => "winter"
    case Spring => "spring"
    case Summer => "summer"
    case Autumn => "autumn"
  }

  function SeasonTypeName(t: SeasonType): string {
    match t
    case Dark => "dark"
    case True => "true"
    case Bright => "bright"
    case Light => "light"
    case Soft => "soft"
  }

  function ColorTypeName(c: ColorType): string {
    match c
    case FN => "fn"
    case CA => "ca"
    case M => "m"
  }

  function ParseSeason(x: string): (r: Option<Season>)
    ensures forall s :: r == Some(s) <==> x == SeasonName(s)
  {
    if x == "winter" then Some(Winter)
    else if x == "spring" then Some(Spring)
    else if x == "summer" then Some(Summer)
    else if x == "autumn" then Some(Autumn)
    else None
  }

  function ParseSeasonType(x: string): (r: Option<SeasonType>)
    ensures forall t :: r == Some(t) <==> x == SeasonTypeName(t)
  {
    if x == "dark" then Some(Dark)
    else if x == "true" then Some(True)
    else if x == "bright" then Some(Bright)
    else if x == "light" then Some(Light)
    else if x == "soft" then Some(Soft)
    else None
  }

  function ParseColorType(x: string): (r: Option<ColorType>)
    ensures forall c :: r == Some(c) <==> x == ColorTypeName(c)
  {
    if x == "fn" then Some(FN)
    else if x == "ca" then Some(CA)
    else if x == "m" then Some(M)
    else None
  }

  /** The three subtypes each season admits, in the order the validator lists them. */
  function AllowedTypes(s: Season): seq<SeasonType> {
    match s
    case Winter => [Dark, True, Bright]
    case Spring => [Bright, True, Light]
    case Summer => [Light, True, Soft]
    case Autumn => [Soft, True, Dark]
  }

  /** One name of a catalogued colour. */
  datatype NameInfo = NameInfo(name: string, source: ColorDataSource, number: Option<string>)

  /** One seasonal-palette classification of a catalogued colour. */
  datatype SeasonInfo = SeasonInfo(season: Season, seasonType: SeasonType, colorType: Option<ColorType>)

  /** A browser tab's id; a plain number. */
  type TabId = int

  /** The lifecycle of the overlay in one tab. */
  datatype IdentifierState = Closed | Opened

  function IdentifierName(s: IdentifierState): string {
    match s
    case Closed => "closed"
    case Opened => "opened"
  }

  /** An opaque handle to a host messaging channel. */
  datatype Port = Port(handle: nat)
}
