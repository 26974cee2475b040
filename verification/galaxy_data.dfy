/**
 * The pure helpers of the galaxy loader (GenerateGalaxy): reading IDs from CSV
 * cells, clamping faction IDs, the faction and security colour schemes, hex
 * colour decoding and the spectral-class star colours.
 */
module GalaxyData {
  import opened Common
  import opened NamedColors

  // ---------------------------------------------------------------------------
  // Decimal integers, as C#'s Convert.ToInt32(string) reads and writes them

  /** The white space Int32 parsing skips around the number. */
  predicate IsSpace(c: char) {
    c == ' ' || '\t' <= c <= '\r'
  }

  predicate IsDigit(c: char) {
    '0' <= c <= '9'
  }

  predicate AllDigits(s: string) {
    forall i :: 0 <= i < |s| ==> IsDigit(s[i])
  }

  predicate AllSpace(s: string) {
    forall i :: 0 <= i < |s| ==> IsSpace(s[i])
  }

  /** The value of a string of decimal digits, most significant first. */
  function DigitsValue(ds: string): nat
    requires AllDigits(ds)
  {
    if ds == [] then 0
    else DigitsValue(ds[..|ds| - 1]) * 10 + (ds[|ds| - 1] as int - '0' as int)
  }

  /** Drops leading white space. */
  function TrimStart(s: string): (t: string)
    ensures |t| <= |s|
    ensures t == s[|s| - |t|..]
    ensures t != [] ==> !IsSpace(t[0])
  {
    if s != [] && IsSpace(s[0]) then TrimStart(s[1..]) else s
  }

  /** Drops trailing white space. */
  function TrimEnd(s: string): (t: string)
    ensures |t| <= |s|
    ensures t == s[..|t|]
    ensures t != [] ==> !IsSpace(t[|t| - 1])
  {
    if s != [] && IsSpace(s[|s| - 1]) then TrimEnd(s[..|s| - 1]) else s
  }

  /**
   * The number in text that has already been trimmed: an optional '+' or '-'
   * and one or more decimal digits whose value fits an Int32. None stands for
   * the FormatException or OverflowException Convert.ToInt32 throws.
   */
  function ParseNumber(t: string): (r: Option<Int32>)
    ensures r.Some? ==> exists i :: 0 <= i < |t| && IsDigit(t[i])
  {
    var neg := t != [] && t[0] == '-';
    var ds := if t != [] && (t[0] == '-' || t[0] == '+') then t[1..] else t;
    if ds == [] || !AllDigits(ds) then None
    else
      var m: int := DigitsValue(ds);
      var v := if neg then -m else m;
      if Int32Min <= v <= Int32Max then
        assert IsDigit(ds[0]);
        Some(v)
      else None
  }

  /**
   * Int32 parsing in the default integer style: optional white space, an
   * optional sign, one or more decimal digits, optional white space.
   */
  function ParseInt32(s: string): Option<Int32> {
    ParseNumber(TrimEnd(TrimStart(s)))
  }

  /** Only text that holds a decimal digit converts. */
  lemma ParseNeedsDigit(s: string)
    ensures ParseInt32(s).Some? ==> exists i :: 0 <= i < |s| && IsDigit(s[i])
  {
    var t0 := TrimStart(s);
    var t := TrimEnd(t0);
    if ParseNumber(t).Some? {
      var i :| 0 <= i < |t| && IsDigit(t[i]);
      assert t[i] == t0[i];
      assert t0[i] == s[|s| - |t0| + i];
    }
  }

  /** The decimal digits of a natural number, without leading zeros. */
  function Digits(n: nat): (ds: string)
    ensures ds != [] && AllDigits(ds)
  {
    if n < 10 then ['0' + n as char] else Digits(n / 10) + ['0' + (n % 10) as char]
  }

  /** The text C#'s ToString gives an int. */
  function FormatInt32(n: Int32): string {
    var m: int := n;
    if m < 0 then "-" + Digits(-m) else Digits(m)
  }

  lemma {:induction false} DigitsValueOfDigits(n: nat)
    ensures DigitsValue(Digits(n)) == n
  {
    if n >= 10 {
      var ds := Digits(n);
      assert ds[..|ds| - 1] == Digits(n / 10);
      DigitsValueOfDigits(n / 10);
    }
  }

  lemma {:induction false} TrimStartSkipsSpace(pre: string, s: string)
    requires AllSpace(pre)
    ensures TrimStart(pre + s) == TrimStart(s)
    decreases |pre|
  {
    if pre != [] {
      assert (pre + s)[0] == pre[0];
      assert (pre + s)[1..] == pre[1..] + s;
      TrimStartSkipsSpace(pre[1..], s);
    } else {
      assert pre + s == s;
    }
  }

  lemma {:induction false} TrimEndSkipsSpace(s: string, post: string)
    requires AllSpace(post)
    ensures TrimEnd(s + post) == TrimEnd(s)
    decreases |post|
  {
    if post != [] {
      assert (s + post)[|s + post| - 1] == post[|post| - 1];
      assert (s + post)[..|s + post| - 1] == s + post[..|post| - 1];
      TrimEndSkipsSpace(s, post[..|post| - 1]);
    } else {
      assert s + post == s;
    }
  }

  /** Trimming white space leaves a string that already starts and ends with a non-space. */
  lemma TrimPadding(pre: string, f: string, post: string)
    requires AllSpace(pre) && AllSpace(post)
    requires f != [] && !IsSpace(f[0]) && !IsSpace(f[|f| - 1])
    ensures TrimEnd(TrimStart(pre + f + post)) == f
  {
    TrimStartSkipsSpace(pre, f + post);
    assert pre + f + post == pre + (f + post);
    assert (f + post)[0] == f[0];
    assert TrimStart(f + post) == f + post;
    TrimEndSkipsSpace(f, post);
    assert f[|f| - 1] == f[|f| - 1];
  }

  /** The decimal text of an int starts and ends with a character that is not white space. */
  lemma FormatIsTrimmed(n: Int32)
    ensures var f := FormatInt32(n); f != [] && !IsSpace(f[0]) && !IsSpace(f[|f| - 1])
  {
    var m: int := n;
    var ds := Digits(if m < 0 then -m else m);
    assert IsDigit(ds[0]) && IsDigit(ds[|ds| - 1]);
    if m < 0 {
      var f := FormatInt32(n);
      assert f == "-" + ds;
      assert f[|f| - 1] == ds[|ds| - 1];
    }
  }

  /** The number in the decimal text of an int is that int. */
  lemma ParseNumberFormat(n: Int32)
    ensures ParseNumber(FormatInt32(n)) == Some(n)
  {
    var m: int := n;
    if m < 0 {
      var ds := Digits(-m);
      DigitsValueOfDigits(-m);
      ParseMinus("-" + ds, ds);
    } else {
      var ds := Digits(m);
      DigitsValueOfDigits(m);
      assert IsDigit(ds[0]);
    }
  }

  /** A minus sign followed by digits reads as the negated value of the digits. */
  lemma ParseMinus(f: string, ds: string)
    requires f == "-" + ds && ds != [] && AllDigits(ds)
    requires DigitsValue(ds) <= -Int32Min
    ensures ParseNumber(f) == Some(-(DigitsValue(ds) as int))
  {
    assert f[0] == '-';
    assert f[1..] == ds;
  }

  /** Every int survives being written in decimal and read back. */
  lemma ParseFormat(n: Int32)
    ensures ParseInt32(FormatInt32(n)) == Some(n)
  {
    FormatIsTrimmed(n);
    TrimmedIsItself(FormatInt32(n));
    ParseNumberFormat(n);
  }

  lemma TrimmedIsItself(f: string)
    requires f != [] && !IsSpace(f[0]) && !IsSpace(f[|f| - 1])
    ensures TrimEnd(TrimStart(f)) == f
  {
  }

  /**
   * Every int survives being written in decimal and read back, also with white
   * space around it, as a CSV cell may have.
   */
  lemma ParseFormatRoundTrip(n: Int32, pre: string, post: string)
    requires AllSpace(pre) && AllSpace(post)
    ensures ParseInt32(pre + FormatInt32(n) + post) == Some(n)
  {
    FormatIsTrimmed(n);
    TrimPadding(pre, FormatInt32(n), post);
    ParseNumberFormat(n);
  }

  // ---------------------------------------------------------------------------
  // IDs read from CSV cells

  /**
   * ConvertIDFromString: -1 for a missing or empty cell, 0 when the cell is not
   * an int, the int otherwise.
   */
  function ConvertIDFromString(input: Option<string>): (id: Int32)
    ensures input == None || input == Some([]) ==> id == -1
    ensures input.Some? && input.value != [] && ParseInt32(input.value) == None ==> id == 0
    ensures input.Some? && input.value != [] && ParseInt32(input.value).Some? ==> id == ParseInt32(input.value).value
  {
    match input
    case None => -1
    case Some(s) =>
      if |s| == 0 then -1
      else match ParseInt32(s)
        case Some(n) => n
        case None => 0
  }

  /** A cell holding an int (white space around it allowed) yields that int. */
  lemma ConvertIDRoundTrip(n: Int32, pre: string, post: string)
    requires AllSpace(pre) && AllSpace(post)
    ensures ConvertIDFromString(Some(pre + FormatInt32(n) + post)) == n
  {
    ParseFormatRoundTrip(n, pre, post);
  }

  /** A cell without any digit, such as a header or a word, yields 0. */
  lemma ConvertIDWithoutDigits(s: string)
    requires s != [] && forall i :: 0 <= i < |s| ==> !IsDigit(s[i])
    ensures ConvertIDFromString(Some(s)) == 0
  {
    ParseNeedsDigit(s);
  }

  /** A number outside the int range is a conversion failure too, and yields 0. */
  lemma {:induction false} ConvertIDOverflow(k: nat, negative: bool)
    requires k > Int32Max + 1 || (k == Int32Max + 1 && !negative)
    ensures ConvertIDFromString(Some(if negative then "-" + Digits(k) else Digits(k))) == 0
  {
    var ds := Digits(k);
    var f := if negative then "-" + ds else ds;
    DigitsValueOfDigits(k);
    assert IsDigit(ds[0]) && IsDigit(ds[|ds| - 1]);
    assert f[|f| - 1] == ds[|ds| - 1];
    TrimmedIsItself(f);
    ParseNumberOverflow(f, ds, negative);
  }

  /** Digits whose value does not fit an Int32, with or without a minus sign, do not read as a number. */
  lemma ParseNumberOverflow(f: string, ds: string, negative: bool)
    requires f == (if negative then "-" + ds else ds) && ds != [] && AllDigits(ds)
    requires DigitsValue(ds) > Int32Max + 1 || (DigitsValue(ds) == Int32Max + 1 && !negative)
    ensures ParseNumber(f) == None
  {
    if negative {
      assert f[0] == '-' && f[1..] == ds;
    } else {
      assert IsDigit(f[0]);
    }
  }

  // ---------------------------------------------------------------------------
  // Factions

  const FactionIdMin: int := 500000
  const FactionIdMax: int := 500020
  /** The "no faction" ID, stored in place of an unknown one. */
  const NoFaction: int := 500000

  /** The faction clamp applied to region and system rows. */
  function ClampFaction(id: int): (r: int)
    ensures FactionIdMin <= r <= FactionIdMax
    ensures FactionIdMin <= id <= FactionIdMax ==> r == id
    ensures !(FactionIdMin <= id <= FactionIdMax) ==> r == NoFaction
  {
    if FactionIdMin <= id && id <= FactionIdMax then id else NoFaction
  }

  /** The faction colour scheme; black is the default for unknown IDs. */
  function FactionColor(id: int): (c: NamedColor)
    ensures FactionIdMin <= id <= FactionIdMax <==> c != Black
  {
    match id
    case 500000 => DimGray          // no faction
    case 500001 => DeepSkyBlue      // Caldari
    case 500002 => Chocolate        // Minmatar
    case 500003 => Gold             // Amarr
    case 500007 => OrangeRed        // Ammatar Mandate
    case 500008 => Orange           // Khanid Kingdom
    case 500004 => Lime             // Gallente
    case 500005 => Silver           // Jove
    case 500006 => LightSkyBlue     // CONCORD
    case 500009 => DimGray          // The Syndicate
    case 500010 => GoldenRod        // Guristas Pirates
    case 500011 => Silver           // Angel Cartel
    case 500012 => FireBrick        // Blood Raider Covenant
    case 500013 => White            // The Interbus
    case 500014 => Yellow           // ORE
    case 500015 => Peru             // Thukker Tribe
    case 500016 => DimGray          // Sisters of Eve
    case 500017 => LightGray        // Society of Conscious Thought
    case 500018 => White            // Mordu's Legion
    case 500019 => DarkOliveGreen   // Sansha's Nation
    case 500020 => OliveDrab        // Serpentis
    case _ => Black
  }

  /** Every faction ID a region or system row stores has a colour of its own. */
  lemma ClampedFactionHasColor(cell: Option<string>)
    ensures FactionColor(ClampFaction(ConvertIDFromString(cell))) != Black
  {
  }

  // ---------------------------------------------------------------------------
  // Row filters of the loaders

  /** Region rows kept: IDs strictly between 0 and 11000000. */
  predicate IsRegionId(id: int) {
    0 < id < 11000000
  }

  /** System rows kept: IDs strictly between 0 and 31000000 (wormhole systems are not). */
  predicate IsSystemId(id: int) {
    0 < id < 31000000
  }

  /** Faction rows kept: IDs from 500000 up to 500099. */
  predicate IsFactionRowId(id: int) {
    500000 <= id < 500100
  }

  /** A kept faction row is coloured exactly when its ID is inside the clamp range. */
  lemma FactionRowColor(id: int)
    requires IsFactionRowId(id)
    ensures FactionColor(id) != Black <==> id <= FactionIdMax
  {
  }

  // ---------------------------------------------------------------------------
  // Hex colours

  /** The value of one hexadecimal digit, either case. */
  function HexDigit(c: char): (v: Option<nat>)
    ensures v.Some? ==> v.value < 16
  {
    if '0' <= c <= '9' then Some(c as int - '0' as int)
    else if 'a' <= c <= 'f' then Some(c as int - 'a' as int + 10)
    else if 'A' <= c <= 'F' then Some(c as int - 'A' as int + 10)
    else None
  }

  /**
   * The two characters base-16 byte parsing accepts: two hex digits, or a '+'
   * sign followed by one hex digit. A '-' sign, a "0x" prefix without digits
   * after it and white space are all rejected.
   */
  predicate HexPair(hi: char, lo: char) {
    HexDigit(lo).Some? && (hi == '+' || HexDigit(hi).Some?)
  }

  /** Convert.ToByte of a two-character text in base 16. */
  function HexByte(hi: char, lo: char): (b: Option<Byte>)
    ensures b.Some? <==> HexPair(hi, lo)
    ensures b.Some? && hi == '+' ==> b.value == HexDigit(lo).value
  {
    match (HexDigit(hi), HexDigit(lo))
    case (Some(h), Some(l)) => Some(h * 16 + l)
    case (None, Some(l)) => if hi == '+' then Some(l) else None
    case _ => None
  }

  /** A sign before a single digit reads as that digit: "+f" is 15. */
  lemma SignedHexDigit(d: nat)
    requires d < 16
    ensures HexByte('+', HexChars[d]) == Some(d)
  {
    HexCharValue(d);
  }

  /** The exceptions ConvertHexColor throws. */
  datatype HexError = TooShort | NotHex

  /**
   * ConvertHexColor: characters 0-1, 2-3 and 4-5 are red, green and blue in
   * hex, alpha is opaque, later characters are ignored; fewer than six
   * characters throw.
   */
  function ConvertHexColor(s: string): (r: Result<Color32, HexError>)
    ensures |s| < 6 <==> r == Err(TooShort)
    ensures r.Ok? ==> r.value.a == 255
    ensures r.Ok? <==> |s| >= 6 && HexPair(s[0], s[1]) && HexPair(s[2], s[3]) && HexPair(s[4], s[5])
  {
    if |s| < 6 then Err(TooShort)
    else match (HexByte(s[0], s[1]), HexByte(s[2], s[3]), HexByte(s[4], s[5]))
      case (Some(r), Some(g), Some(b)) => Ok(Color32(r, g, b, 255))
      case _ => Err(NotHex)
  }

  const HexChars: string := "0123456789abcdef"

  /** A byte as two lower-case hex digits. */
  function HexOf(b: Byte): (s: string)
    ensures |s| == 2
  {
    [HexChars[b / 16], HexChars[b % 16]]
  }

  /** A colour's red, green and blue as six hex digits. */
  function HexString(c: Color32): (s: string)
    ensures |s| == 6
  {
    HexOf(c.r) + HexOf(c.g) + HexOf(c.b)
  }

  lemma HexCharValue(d: nat)
    requires d < 16
    ensures HexDigit(HexChars[d]) == Some(d)
  {
  }

  lemma HexOfRoundTrip(b: Byte)
    ensures HexByte(HexOf(b)[0], HexOf(b)[1]) == Some(b)
  {
    HexCharValue(b / 16);
    HexCharValue(b % 16);
  }

  /** A colour written in hex reads back as the same colour made opaque, whatever follows it. */
  lemma HexRoundTrip(c: Color32, tail: string)
    ensures ConvertHexColor(HexString(c) + tail) == Ok(Color32(c.r, c.g, c.b, 255))
  {
    HexOfRoundTrip(c.r);
    HexOfRoundTrip(c.g);
    HexOfRoundTrip(c.b);
    var s := HexString(c) + tail;
    assert s[0] == HexOf(c.r)[0] && s[1] == HexOf(c.r)[1];
    assert s[2] == HexOf(c.g)[0] && s[3] == HexOf(c.g)[1];
    assert s[4] == HexOf(c.b)[0] && s[5] == HexOf(c.b)[1];
  }

  /** Each colour channel may also be written as a sign and one digit. */
  lemma SignedHexColor()
    ensures ConvertHexColor("+f+f+f") == Ok(Color32(15, 15, 15, 255))
  {
    SignedHexDigit(15);
  }

  /** Only the first six characters matter. */
  lemma HexIgnoresTail(s: string, tail: string)
    requires |s| >= 6
    ensures ConvertHexColor(s + tail) == ConvertHexColor(s)
  {
    assert (s + tail)[..6] == s[..6];
  }

  // ---------------------------------------------------------------------------
  // Star colours by spectral class

  /** The hex colour of each Harvard spectral class the loader knows. */
  function SolarHex(cls: char): Option<string> {
    match cls
    case 'O' => Some("9bb0ff")
    case 'B' => Some("aabfff")
    case 'A' => Some("cad8ff")
    case 'F' => Some("fbf8ff")
    case 'G' => Some("fff4e8")
    case 'K' => Some("ffddb4")
    case 'M' => Some("ffbd6f")
    case 'L' => Some("f84235")
    case 'T' => Some("ba3059")
    case 'Y' => Some("000000")
    case _ => None
  }

  /** Building the star materials never throws: every table entry is a valid hex colour. */
  lemma SolarTableDecodes(cls: char)
    requires SolarHex(cls).Some?
    ensures ConvertHexColor(SolarHex(cls).value).Ok?
  {
  }

  /**
   * The star colour of a system row: the colour of the class named by the
   * first character of its class text, or of class G for an unknown class.
   * None stands for the exception an empty class text throws.
   */
  function StarColor(classText: string): (c: Option<Color32>)
    ensures c == None <==> classText == []
    ensures c.Some? && SolarHex(classText[0]).Some? ==> ConvertHexColor(SolarHex(classText[0]).value) == Ok(c.value)
    ensures c.Some? && SolarHex(classText[0]).None? ==> ConvertHexColor(SolarHex('G').value) == Ok(c.value)
  {
    if classText == [] then None
    else
      var cls := if SolarHex(classText[0]).Some? then classText[0] else 'G';
      SolarTableDecodes(cls);
      match ConvertHexColor(SolarHex(cls).value)
      case Ok(col) => Some(col)
      case Err(_) => None
  }

  // ---------------------------------------------------------------------------
  // Security status

  /** The five security materials. */
  datatype SecurityBand = SuperHighSec | HighSec | HalfSec | LowSec | NullSec

  /**
   * The security material of a system whose security status, rounded to one
   * decimal, is `tenths` / 10: each test overrides the previous ones, as in
   * PaintSystemsSec.
   */
  function Band(tenths: int): (b: SecurityBand)
    ensures b == SuperHighSec <==> tenths >= 9
    ensures b == HighSec <==> 6 <= tenths < 9
    ensures b == HalfSec <==> tenths == 5
    ensures b == LowSec <==> 0 < tenths < 5
    ensures b == NullSec <==> tenths <= 0
  {
    var b0 := NullSec;
    var b1 := if tenths >= 9 then SuperHighSec else b0;
    var b2 := if 6 <= tenths && tenths < 9 then HighSec else b1;
    var b3 := if 5 <= tenths && tenths < 6 then HalfSec else b2;
    var b4 := if 0 < tenths && tenths < 5 then LowSec else b3;
    if tenths <= 0 then NullSec else b4
  }

  /** The colour of each security material. */
  function BandColor(b: SecurityBand): NamedColor {
    match b
    case SuperHighSec => Cyan
    case HighSec => Green
    case HalfSec => Yellow
    case LowSec => DarkOrange
    case NullSec => Crimson
  }

  /** The five materials have five different colours. */
  lemma BandColorsDistinct(b1: SecurityBand, b2: SecurityBand)
    requires b1 != b2
    ensures Rgba(BandColor(b1)) != Rgba(BandColor(b2))
  {
    AquaIsCyan();
    GrayGreenLime();
    WarningColors();
  }
}
