/**
 * The named colour table of MyColor: one constant RGBA colour per extended
 * colour keyword of CSS Color Module Level 3 (section 4.3), all fully opaque.
 */
module NamedColors {

  /** A byte, the channel type of Unity's Color32. */
  type Byte = x: int | 0 <= x < 256

  /** An RGBA colour with one byte per channel. */
  datatype Color32 = Color32(r: Byte, g: Byte, b: Byte, a: Byte)

  /** The keywords the table defines, in the table's order. */
  datatype NamedColor =
    | AliceBlue
    | AntiqueWhite
    | Aqua
    | Aquamarine
    | Azure
    | Beige
    | Bisque
    | Black
    | BlanchedAlmond
    | Blue
    | BlueViolet
    | Brown
    | BurlyWood
    | CadetBlue
    | Chartreuse
    | Chocolate
    | Coral
    | CornflowerBlue
    | Cornsilk
    | Crimson
    | Cyan
    | DarkBlue
    | DarkCyan
    | DarkGoldenRod
    | DarkGray
    | DarkGreen
    | DarkKhaki
    | DarkMagenta
    | DarkOliveGreen
    | DarkOrange
    | DarkOrchid
    | DarkRed
    | DarkSalmon
    | DarkSeaGreen
    | DarkSlateBlue
    | DarkSlateGray
    | DarkTurquoise
    | DarkViolet
    | DeepPink
    | DeepSkyBlue
    | DimGray
    | DodgerBlue
    | FireBrick
    | FloralWhite
    | ForestGreen
    | Fuchsia
    | Gainsboro
    | GhostWhite
    | Gold
    | GoldenRod
    | Gray
    | Green
    | GreenYellow
    | HoneyDew
    | HotPink
    | IndianRed
    | Indigo
    | Ivory
    | Khaki
    | Lavender
    | LavenderBlush
    | LawnGreen
    | LemonChiffon
    | LightBlue
    | LightCoral
    | LightCyan
    | LightGoldenRodYellow
    | LightGray
    | LightGreen
    | LightPink
    | LightSalmon
    | LightSeaGreen
    | LightSkyBlue
    | LightSlateGray
    | LightSteelBlue
    | LightYellow
    | Lime
    | LimeGreen
    | Linen
    | Magenta
    | Maroon
    | MediumAquaMarine
    | MediumBlue
    | MediumOrchid
    | MediumPurple
    | MediumSeaGreen
    | MediumSlateBlue
    | MediumSpringGreen
    | MediumTurquoise
    | MediumVioletRed
    | MidnightBlue
    | MintCream
    | MistyRose
    | Moccasin
    | NavajoWhite
    | Navy
    | OldLace
    | Olive
    | OliveDrab
    | Orange
    | OrangeRed
    | Orchid
    | PaleGoldenRod
    | PaleGreen
    | PaleTurquoise
    | PaleVioletRed
    | PapayaWhip
    | PeachPuff
    | Peru
    | Pink
    | Plum
    | PowderBlue
    | Purple
    | Red
    | RosyBrown
    | RoyalBlue
    | SaddleBrown
    | Salmon
    | SandyBrown
    | SeaGreen
    | SeaShell
    | Sienna
    | Silver
    | SkyBlue
    | SlateBlue
    | SlateGray
    | Snow
    | SpringGreen
    | SteelBlue
    | Tan
    | Teal
    | Thistle
    | Tomato
    | Turquoise
    | Violet
    | Wheat
    | White
    | WhiteSmoke
    | Yellow
    | YellowGreen

  /** The colour behind each keyword; every entry is opaque. */
  function Rgba(c: NamedColor): (rgba: Color32)
    ensures rgba.a == 255
  {
    match c
    case AliceBlue => Color32(240, 248, 255, 255)
    case AntiqueWhite => Color32(250, 235, 215, 255)
    case Aqua => Color32(0, 255, 255, 255)
    case Aquamarine => Color32(127, 255, 212, 255)
    case Azure => Color32(240, 255, 255, 255)
    case Beige => Color32(245, 245, 220, 255)
    case Bisque => Color32(255, 228, 196, 255)
    case Black => Color32(0, 0, 0, 255)
    case BlanchedAlmond => Color32(255, 235, 205, 255)
    case Blue => Color32(0, 0, 255, 255)
    case BlueViolet => Color32(138, 43, 226, 255)
    case Brown => Color32(165, 42, 42, 255)
    case BurlyWood => Color32(222, 184, 135, 255)
    case CadetBlue => Color32(95, 158, 160, 255)
    case Chartreuse => Color32(127, 255, 0, 255)
    case Chocolate => Color32(210, 105, 30, 255)
    case Coral => Color32(255, 127, 80, 255)
    case CornflowerBlue => Color32(100, 149, 237, 255)
    case Cornsilk => Color32(255, 248, 220, 255)
    case Crimson => Color32(220, 20, 60, 255)
    case Cyan => Color32(0, 255, 255, 255)
    case DarkBlue => Color32(0, 0, 139, 255)
    case DarkCyan => Color32(0, 139, 139, 255)
    case DarkGoldenRod => Color32(184, 134, 11, 255)
    case DarkGray => Color32(169, 169, 169, 255)
    case DarkGreen => Color32(0, 100, 0, 255)
    case DarkKhaki => Color32(189, 183, 107, 255)
    case DarkMagenta => Color32(139, 0, 139, 255)
    case DarkOliveGreen => Color32(85, 107, 47, 255)
    case DarkOrange => Color32(255, 140, 0, 255)
    case DarkOrchid => Color32(153, 50, 204, 255)
    case DarkRed => Color32(139, 0, 0, 255)
    case DarkSalmon => Color32(233, 150, 122, 255)
    case DarkSeaGreen => Color32(143, 188, 143, 255)
    case DarkSlateBlue => Color32(72, 61, 139, 255)
    case DarkSlateGray => Color32(47, 79, 79, 255)
    case DarkTurquoise => Color32(0, 206, 209, 255)
    case DarkViolet => Color32(148, 0, 211, 255)
    case DeepPink => Color32(255, 20, 147, 255)
    case DeepSkyBlue => Color32(0, 191, 255, 255)
    case DimGray => Color32(105, 105, 105, 255)
    case DodgerBlue => Color32(30, 144, 255, 255)
    case FireBrick => Color32(178, 34, 34, 255)
    case FloralWhite => Color32(255, 250, 240, 255)
    case ForestGreen => Color32(34, 139, 34, 255)
    case Fuchsia => Color32(255, 0, 255, 255)
    case Gainsboro => Color32(220, 220, 220, 255)
    case GhostWhite => Color32(248, 248, 255, 255)
    case Gold => Color32(255, 215, 0, 255)
    case GoldenRod => Color32(218, 165, 32, 255)
    case Gray => Color32(128, 128, 128, 255)
    case Green => Color32(0, 128, 0, 255)
    case GreenYellow => Color32(173, 255, 47, 255)
    case HoneyDew => Color32(240, 255, 240, 255)
    case HotPink => Color32(255, 105, 180, 255)
    case IndianRed => Color32(205, 92, 92, 255)
    case Indigo => Color32(75, 0, 130, 255)
    case Ivory => Color32(255, 255, 240, 255)
    case Khaki => Color32(240, 230, 140, 255)
    case Lavender => Color32(230, 230, 250, 255)
    case LavenderBlush => Color32(255, 240, 245, 255)
    case LawnGreen => Color32(124, 252, 0, 255)
    case LemonChiffon => Color32(255, 250, 205, 255)
    case LightBlue => Color32(173, 216, 230, 255)
    case LightCoral => Color32(240, 128, 128, 255)
    case LightCyan => Color32(224, 255, 255, 255)
    case LightGoldenRodYellow => Color32(250, 250, 210, 255)
    case LightGray => Color32(211, 211, 211, 255)
    case LightGreen => Color32(144, 238, 144, 255)
    case LightPink => Color32(255, 182, 193, 255)
    case LightSalmon => Color32(255, 160, 122, 255)
    case LightSeaGreen => Color32(32, 178, 170, 255)
    case LightSkyBlue => Color32(135, 206, 250, 255)
    case LightSlateGray => Color32(119, 136, 153, 255)
    case LightSteelBlue => Color32(176, 196, 222, 255)
    case LightYellow => Color32(255, 255, 224, 255)
    case Lime => Color32(0, 255, 0, 255)
    case LimeGreen => Color32(50, 205, 50, 255)
    case Linen => Color32(250, 240, 230, 255)
    case Magenta => Color32(255, 0, 255, 255)
    case Maroon => Color32(128, 0, 0, 255)
    case MediumAquaMarine => Color32(102, 205, 170, 255)
    case MediumBlue => Color32(0, 0, 205, 255)
    case MediumOrchid => Color32(186, 85, 211, 255)
    case MediumPurple => Color32(147, 112, 219, 255)
    case MediumSeaGreen => Color32(60, 179, 113, 255)
    case MediumSlateBlue => Color32(123, 104, 238, 255)
    case MediumSpringGreen => Color32(0, 250, 154, 255)
    case MediumTurquoise => Color32(72, 209, 204, 255)
    case MediumVioletRed => Color32(199, 21, 133, 255)
    case MidnightBlue => Color32(25, 25, 112, 255)
    case MintCream => Color32(245, 255, 250, 255)
    case MistyRose => Color32(255, 228, 225, 255)
    case Moccasin => Color32(255, 228, 181, 255)
    case NavajoWhite => Color32(255, 222, 173, 255)
    case Navy => Color32(0, 0, 128, 255)
    case OldLace => Color32(253, 245, 230, 255)
    case Olive => Color32(128, 128, 0, 255)
    case OliveDrab => Color32(107, 142, 35, 255)
    case Orange => Color32(255, 165, 0, 255)
    case OrangeRed => Color32(255, 69, 0, 255)
    case Orchid => Color32(218, 112, 214, 255)
    case PaleGoldenRod => Color32(238, 232, 170, 255)
    case PaleGreen => Color32(152, 251, 152, 255)
    case PaleTurquoise => Color32(175, 238, 238, 255)
    case PaleVioletRed => Color32(219, 112, 147, 255)
    case PapayaWhip => Color32(255, 239, 213, 255)
    case PeachPuff => Color32(255, 218, 185, 255)
    case Peru => Color32(205, 133, 63, 255)
    case Pink => Color32(255, 192, 203, 255)
    case Plum => Color32(221, 160, 221, 255)
    case PowderBlue => Color32(176, 224, 230, 255)
    case Purple => Color32(128, 0, 128, 255)
    case Red => Color32(255, 0, 0, 255)
    case RosyBrown => Color32(188, 143, 143, 255)
    case RoyalBlue => Color32(65, 105, 225, 255)
    case SaddleBrown => Color32(139, 69, 19, 255)
    case Salmon => Color32(250, 128, 114, 255)
    case SandyBrown => Color32(244, 164, 96, 255)
    case SeaGreen => Color32(46, 139, 87, 255)
    case SeaShell => Color32(255, 245, 238, 255)
    case Sienna => Color32(160, 82, 45, 255)
    case Silver => Color32(192, 192, 192, 255)
    case SkyBlue => Color32(135, 206, 235, 255)
    case SlateBlue => Color32(106, 90, 205, 255)
    case SlateGray => Color32(112, 128, 144, 255)
    case Snow => Color32(255, 250, 250, 255)
    case SpringGreen => Color32(0, 255, 127, 255)
    case SteelBlue => Color32(70, 130, 180, 255)
    case Tan => Color32(210, 180, 140, 255)
    case Teal => Color32(0, 128, 128, 255)
    case Thistle => Color32(216, 191, 216, 255)
    case Tomato => Color32(255, 99, 71, 255)
    case Turquoise => Color32(64, 224, 208, 255)
    case Violet => Color32(238, 130, 238, 255)
    case Wheat => Color32(245, 222, 179, 255)
    case White => Color32(255, 255, 255, 255)
    case WhiteSmoke => Color32(245, 245, 245, 255)
    case Yellow => Color32(255, 255, 0, 255)
    case YellowGreen => Color32(154, 205, 50, 255)
  }

  /** aqua and cyan name the same colour, as CSS defines them. */
  lemma AquaIsCyan()
    ensures Rgba(Aqua) == Rgba(Cyan) == Color32(0, 255, 255, 255)
  {
  }

  /** fuchsia and magenta name the same colour, as CSS defines them. */
  lemma FuchsiaIsMagenta()
    ensures Rgba(Fuchsia) == Rgba(Magenta) == Color32(255, 0, 255, 255)
  {
  }

  /** The two extremes of the table. */
  lemma BlackAndWhite()
    ensures Rgba(Black) == Color32(0, 0, 0, 255)
    ensures Rgba(White) == Color32(255, 255, 255, 255)
  {
  }

  /** CSS gray and green are the half-intensity values; lime is the full-intensity green. */
  lemma GrayGreenLime()
    ensures Rgba(Gray) == Color32(128, 128, 128, 255)
    ensures Rgba(Green) == Color32(0, 128, 0, 255)
    ensures Rgba(Lime) == Color32(0, 255, 0, 255)
    ensures Rgba(Green) != Rgba(Lime)
  {
  }

  /** The warm colours, from yellow through dark orange to crimson. */
  lemma WarningColors()
    ensures Rgba(Yellow) == Color32(255, 255, 0, 255)
    ensures Rgba(DarkOrange) == Color32(255, 140, 0, 255)
    ensures Rgba(Crimson) == Color32(220, 20, 60, 255)
  {
  }
}
