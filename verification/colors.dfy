/**
 * The ANSI/VT100 colour tables (`FG`, `BG`), colour wrapping (`Color.set`)
 * and coloured symbols (`Symbol.__str__`) of gpio_layouter.py.
 *
 * The escape template is written in the source with doubled backslashes, so
 * the text produced holds the five characters `\033[` and not an ESC byte;
 * EscapeOpen and EscapeReset keep exactly those characters.
 */
module Colors {
  import opened Wrappers
  import opened Text

  /** Foreground (text) colours. */
  datatype FG =
    | Black | Red | Green | Yellow | Blue | Magenta | Cyan | White
    | Gray | BrightRed | BrightGreen | BrightYellow | BrightBlue | BrightMagenta | BrightCyan | BrightWhite

  /** Background colours. */
  datatype BG =
    | Black | Red | Green | Yellow | Blue | Magenta | Cyan | White
    | Gray | BrightRed | BrightGreen | BrightYellow | BrightBlue | BrightMagenta | BrightCyan | BrightWhite

  /** The SGR code of a foreground colour: 30-37 for the normal colours, 90-97 for the bright ones. */
  function FgCode(f: FG): (c: nat)
    ensures 30 <= c <= 37 || 90 <= c <= 97
  {
    match f
    case Black => 30
    case Red => 31
    case Green => 32
    case Yellow => 33
    case Blue => 34
    case Magenta => 35
    case Cyan => 36
    case White => 37
    case Gray => 90
    case BrightRed => 91
    case BrightGreen => 92
    case BrightYellow => 93
    case BrightBlue => 94
    case BrightMagenta => 95
    case BrightCyan => 96
    case BrightWhite => 97
  }

  /** The SGR code of a background colour: 40-47 for the normal colours, 100-107 for the bright ones. */
  function BgCode(b: BG): (c: nat)
    ensures 40 <= c <= 47 || 100 <= c <= 107
  {
    match b
    case Black => 40
    case Red => 41
    case Green => 42
    case Yellow => 43
    case Blue => 44
    case Magenta => 45
    case Cyan => 46
    case White => 47
    case Gray => 100
    case BrightRed => 101
    case BrightGreen => 102
    case BrightYellow => 103
    case BrightBlue => 104
    case BrightMagenta => 105
    case BrightCyan => 106
    case BrightWhite => 107
  }

  /** The foreground colour of the same name as a background colour. */
  function Foreground(b: BG): FG {
    match b
    case Black => FG.Black
    case Red => FG.Red
    case Green => FG.Green
    case Yellow => FG.Yellow
    case Blue => FG.Blue
    case Magenta => FG.Magenta
    case Cyan => FG.Cyan
    case White => FG.White
    case Gray => FG.Gray
    case BrightRed => FG.BrightRed
    case BrightGreen => FG.BrightGreen
    case BrightYellow => FG.BrightYellow
    case BrightBlue => FG.BrightBlue
    case BrightMagenta => FG.BrightMagenta
    case BrightCyan => FG.BrightCyan
    case BrightWhite => FG.BrightWhite
  }

  /** Every background code is the code of the foreground colour of the same name plus 10. */
  lemma BackgroundIsForegroundPlusTen(b: BG)
    ensures BgCode(b) == FgCode(Foreground(b)) + 10
  {
  }

  /** Different colours of one table have different codes. */
  lemma CodesAreDistinct(f: FG, g: FG, b: BG, c: BG)
    ensures FgCode(f) == FgCode(g) ==> f == g
    ensures BgCode(b) == BgCode(c) ==> b == c
  {
  }

  /** The member names the enums were declared with. */
  function FgName(f: FG): string {
    match f
    case Black => "black"
    case Red => "red"
    case Green => "green"
    case Yellow => "yellow"
    case Blue => "blue"
    case Magenta => "magenta"
    case Cyan => "cyan"
    case White => "white"
    case Gray => "gray"
    case BrightRed => "b_red"
    case BrightGreen => "b_green"
    case BrightYellow => "b_yellow"
    case BrightBlue => "b_blue"
    case BrightMagenta => "b_magenta"
    case BrightCyan => "b_cyan"
    case BrightWhite => "b_white"
  }

  function BgName(b: BG): string {
    FgName(Foreground(b))
  }

  /**
   * A `Color`: each of `fg` and `bg` is either a member of its table or left
   * at the constructor's default `0` (None).
   */
  datatype Color = Color(fg: Option<FG>, bg: Option<BG>)

  /** The number a colour attribute stands for: its code, or 0 when left at the default. */
  function FgNumber(fg: Option<FG>): nat {
    if fg.Some? then FgCode(fg.value) else 0
  }

  function BgNumber(bg: Option<BG>): nat {
    if bg.Some? then BgCode(bg.value) else 0
  }

  const EscapeOpen: string := "\\033["
  const EscapeReset: string := "\\033[0m"

  /**
   * `Color.set(s)`: the escape opener, the background number, `;`, the
   * foreground number, `m`, the text unchanged, then the reset sequence.
   */
  function Colorize(c: Color, s: string): (r: string)
    ensures |r| >= |EscapeOpen| + 4 + |s| + |EscapeReset|
    ensures r[..|EscapeOpen|] == EscapeOpen
    ensures r[|r| - |EscapeReset|..] == EscapeReset
    ensures r[|r| - |EscapeReset| - |s|..|r| - |EscapeReset|] == s
    ensures r[|r| - |EscapeReset| - |s| - 1] == 'm'
  {
    EscapeOpen + NatToDecimal(BgNumber(c.bg)) + ";" + NatToDecimal(FgNumber(c.fg)) + "m" + s + EscapeReset
  }

  /** The parts of a coloured fragment: background number, foreground number, text. */
  datatype Sgr = Sgr(bg: nat, fg: nat, text: string)

  /** The number of decimal digits at the start of `s`. */
  function LeadingDigits(s: string): (k: nat)
    ensures k <= |s|
    ensures AllDigits(s[..k])
    ensures k < |s| ==> !IsDigit(s[k])
  {
    if |s| == 0 || !IsDigit(s[0]) then 0
    else
      var k := 1 + LeadingDigits(s[1..]);
      assert s[..k] == [s[0]] + s[1..][..k - 1];
      k
  }

  /** Digits followed by a non-digit: the leading run is exactly the digits. */
  lemma LeadingDigitsOfNumber(d: string, rest: string)
    requires AllDigits(d)
    requires |rest| > 0 && !IsDigit(rest[0])
    ensures LeadingDigits(d + rest) == |d|
  {
    var s := d + rest;
    var k := LeadingDigits(s);
    assert forall i :: 0 <= i < |d| ==> s[i] == d[i];
    assert s[|d|] == rest[0];
  }

  /**
   * Reads a fragment of the form `\033[<digits>;<digits>m<text>\033[0m`
   * back into its parts; None for anything else.
   */
  function ParseColored(r: string): Option<Sgr> {
    var o, e := |EscapeOpen|, |EscapeReset|;
    if |r| < o + e || r[..o] != EscapeOpen || r[|r| - e..] != EscapeReset then None
    else ParseSgrBody(r[o..|r| - e])
  }

  /** Reads `<digits>;<digits>m<text>`, what stands between the opener and the reset. */
  function ParseSgrBody(body: string): Option<Sgr> {
    match ReadNumber(body, ';')
    case None => None
    case Some((bg, rest)) =>
      match ReadNumber(rest, 'm')
      case None => None
      case Some((fg, text)) => Some(Sgr(bg, fg, text))
  }

  /**
   * Reads one or more digits, without a leading zero unless the number is 0,
   * followed by `stop`; gives their value and what follows `stop`.
   */
  function ReadNumber(s: string, stop: char): Option<(nat, string)> {
    var i := LeadingDigits(s);
    if i == 0 || i == |s| || s[i] != stop || (1 < i && s[0] == '0') then None
    else Some((DecimalToNat(s[..i]), s[i + 1..]))
  }

  lemma ReadNumberOf(d: string, stop: char, rest: string)
    requires 1 <= |d| && AllDigits(d) && !IsDigit(stop)
    requires |d| == 1 || d[0] != '0'
    ensures ReadNumber(d + [stop] + rest, stop) == Some((DecimalToNat(d), rest))
  {
    var s := d + [stop] + rest;
    assert s == d + ([stop] + rest);
    LeadingDigitsOfNumber(d, [stop] + rest);
    assert s[0] == d[0];
    assert s[..|d|] == d;
    assert s[|d| + 1..] == rest;
  }

  /** A number spelled with a leading zero, such as `041`, is refused. */
  lemma LeadingZeroRefused(d: string, stop: char, rest: string)
    requires 1 < |d| && AllDigits(d) && d[0] == '0' && !IsDigit(stop)
    ensures ReadNumber(d + [stop] + rest, stop) == None
  {
    var s := d + [stop] + rest;
    assert s == d + ([stop] + rest);
    LeadingDigitsOfNumber(d, [stop] + rest);
    assert s[0] == d[0];
  }

  lemma ParseEscaped(body: string)
    ensures ParseColored(EscapeOpen + body + EscapeReset) == ParseSgrBody(body)
  {
    var r := EscapeOpen + body + EscapeReset;
    assert r[..|EscapeOpen|] == EscapeOpen;
    assert r[|r| - |EscapeReset|..] == EscapeReset;
    assert r[|EscapeOpen|..|r| - |EscapeReset|] == body;
  }

  lemma ParseSgrBodyOf(bg: string, fg: string, s: string)
    requires 1 <= |bg| && AllDigits(bg)
    requires 1 <= |fg| && AllDigits(fg)
    requires |bg| == 1 || bg[0] != '0'
    requires |fg| == 1 || fg[0] != '0'
    ensures ParseSgrBody(bg + ";" + fg + "m" + s) == Some(Sgr(DecimalToNat(bg), DecimalToNat(fg), s))
  {
    var tail := fg + "m" + s;
    assert bg + ";" + fg + "m" + s == bg + [';'] + tail;
    ReadNumberOf(bg, ';', tail);
    ReadNumberOf(fg, 'm', s);
  }

  /**
   * Reading back a coloured fragment gives the background code, then the
   * foreground code, then the text unchanged.
   */
  lemma ColorizeRoundTrip(c: Color, s: string)
    ensures ParseColored(Colorize(c, s)) == Some(Sgr(BgNumber(c.bg), FgNumber(c.fg), s))
  {
    var bgDigits, fgDigits := NatToDecimal(BgNumber(c.bg)), NatToDecimal(FgNumber(c.fg));
    assert |bgDigits| == 1 || bgDigits[0] != '0';
    assert |fgDigits| == 1 || fgDigits[0] != '0';
    var body := bgDigits + ";" + fgDigits + "m" + s;
    assert Colorize(c, s) == EscapeOpen + body + EscapeReset;
    ParseEscaped(body);
    ParseSgrBodyOf(bgDigits, fgDigits, s);
    NatDecimalRoundTrip(BgNumber(c.bg));
    NatDecimalRoundTrip(FgNumber(c.fg));
  }

  /**
   * What `self.escape.format(self.bg, self.fg, s)` produces as written: FG
   * and BG are plain `Enum`s, whose members format as `BG.red` / `FG.red`
   * (their str()), not as their values. The default `0` formats as `0`.
   */
  function FgTextAsWritten(fg: Option<FG>): (r: string)
    ensures fg.None? ==> r == "0"
    ensures fg.Some? ==> |r| > 3 && r[..3] == "FG."
  {
    if fg.Some? then "FG." + FgName(fg.value) else "0"
  }

  function BgTextAsWritten(bg: Option<BG>): (r: string)
    ensures bg.None? ==> r == "0"
    ensures bg.Some? ==> |r| > 3 && r[..3] == "BG."
  {
    if bg.Some? then "BG." + BgName(bg.value) else "0"
  }

  function ColorizeAsWritten(c: Color, s: string): (r: string)
    ensures |r| >= |EscapeOpen| + 4 + |s| + |EscapeReset| && r[..|EscapeOpen|] == EscapeOpen
    ensures c.bg.Some? ==> r[|EscapeOpen|] == 'B'
    ensures c.bg.None? ==> r[|EscapeOpen|..|EscapeOpen| + 2] == "0;"
    ensures c.bg.None? && c.fg.Some? ==> r[|EscapeOpen| + 2] == 'F'
  {
    var bg, fg := BgTextAsWritten(c.bg), FgTextAsWritten(c.fg);
    var r := EscapeOpen + (bg + ";" + fg + "m" + s + EscapeReset);
    assert |bg| >= 1 && |fg| >= 1;
    assert r[..|EscapeOpen|] == EscapeOpen;
    assert r[|EscapeOpen|] == bg[0];
    assert c.bg.None? ==> r[|EscapeOpen|..|EscapeOpen| + 2] == bg + ";";
    assert c.bg.None? ==> r[|EscapeOpen| + 2] == fg[0];
    r
  }

  /**
   * As written, a colour with a named background or a named foreground
   * yields no well-formed SGR sequence at all, where the intended rendering
   * always does.
   */
  lemma AsWrittenIsNotSgr(c: Color, s: string)
    requires c.bg.Some? || c.fg.Some?
    ensures ParseColored(ColorizeAsWritten(c, s)) == None
    ensures ParseColored(Colorize(c, s)) != None
  {
    var bg, fg := BgTextAsWritten(c.bg), FgTextAsWritten(c.fg);
    var body := bg + ";" + fg + "m" + s;
    assert ColorizeAsWritten(c, s) == EscapeOpen + body + EscapeReset;
    ParseEscaped(body);
    assert bg[0] == (if c.bg.Some? then 'B' else '0');
    assert c.bg.None? ==> fg[0] == 'F';
    NamesAreNotSgr(bg, fg, s);
    ColorizeRoundTrip(c, s);
  }

  /**
   * A body whose background opens with a non-digit (`BG.red`), or whose
   * background is the default `0` and whose foreground opens with a
   * non-digit (`FG.white`), carries no pair of numbers.
   */
  lemma NamesAreNotSgr(bg: string, fg: string, s: string)
    requires |bg| > 0 && |fg| > 0
    requires !IsDigit(bg[0]) || (bg == "0" && !IsDigit(fg[0]))
    ensures ParseSgrBody(bg + ";" + fg + "m" + s) == None
  {
    var body := bg + ";" + fg + "m" + s;
    if bg == "0" && IsDigit(fg[0]) {
      assert false;
    } else if !IsDigit(bg[0]) {
      assert body[0] == bg[0];
    } else {
      var rest := fg + "m" + s;
      assert body == "0" + [';'] + rest;
      ReadNumberOf("0", ';', rest);
      assert rest[0] == fg[0];
    }
  }

  /** A symbol: a short ASCII string and its colour. */
  datatype Symbol = Symbol(ascii: string, color: Color)

  /** `Symbol.__str__`: the ASCII symbol wrapped in its colour, which leaves it unchanged at the end. */
  function SymbolText(sym: Symbol): (r: string)
    ensures |r| >= 15 + |sym.ascii|
    ensures r[..|EscapeOpen|] == EscapeOpen
    ensures r[|r| - |EscapeReset| - |sym.ascii|..|r| - |EscapeReset|] == sym.ascii
  {
    Colorize(sym.color, sym.ascii)
  }

  /** A coloured symbol reads back as its colour's codes and its ASCII text. */
  lemma SymbolReadsBack(sym: Symbol)
    ensures ParseColored(SymbolText(sym)) == Some(Sgr(BgNumber(sym.color.bg), FgNumber(sym.color.fg), sym.ascii))
  {
    ColorizeRoundTrip(sym.color, sym.ascii);
  }
}
