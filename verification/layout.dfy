/**
 * The layout part of gpio_layouter.py: legend entries (`Legend`), column
 * widths (`StrWidths`), one pin record rendered as a fixed-width row
 * (`FGPIO`) and the lines a `Map` prints, returned as sequences of strings.
 */
module Layout {
  import opened Wrappers
  import opened Text
  import opened Colors

  /** A description as Legend and FGPIO store it: in parentheses, unless it is empty. */
  function WrapDescription(d: string): (r: string)
    ensures r == "" <==> d == ""
    ensures d != "" ==> |r| == |d| + 2 && r[0] == '(' && r[|r| - 1] == ')' && r[1..|r| - 1] == d
  {
    if d != "" then "(" + d + ")" else ""
  }

  /** Takes the parentheses off a stored description. */
  function UnwrapDescription(r: string): string {
    if 2 <= |r| && r[0] == '(' && r[|r| - 1] == ')' then r[1..|r| - 1] else r
  }

  /** The stored description determines the one given. */
  lemma DescriptionRoundTrip(d: string)
    ensures UnwrapDescription(WrapDescription(d)) == d
  {
  }

  /** A legend entry: symbol, name and stored (wrapped) description. */
  datatype Legend = Legend(symbol: Symbol, name: string, desc: string)

  /** `Legend(symbol, name, description)`. */
  function NewLegend(symbol: Symbol, name: string, description: string): (l: Legend)
    ensures l.symbol == symbol && l.name == name
    ensures UnwrapDescription(l.desc) == description
    ensures l.desc == "" <==> description == ""
    ensures description != "" ==> l.desc == "(" + description + ")"
  {
    DescriptionRoundTrip(description);
    Legend(symbol, name, WrapDescription(description))
  }

  /** `Legend.__str__`: coloured symbol, a space, the name, a space, the description. */
  function LegendText(l: Legend): (r: string)
    ensures |r| == |SymbolText(l.symbol)| + |l.name| + |l.desc| + 2
    ensures r[..|SymbolText(l.symbol)|] == SymbolText(l.symbol)
    ensures r[|r| - |l.desc|..] == l.desc
    ensures r[|SymbolText(l.symbol)| + 1..|r| - |l.desc| - 1] == l.name
    ensures r[|SymbolText(l.symbol)|] == ' ' && r[|r| - |l.desc| - 1] == ' '
  {
    var sym := SymbolText(l.symbol);
    var r := sym + " " + l.name + " " + l.desc;
    assert r == sym + (" " + l.name + " " + l.desc);
    r
  }

  /** Field widths: symbol, pin, name, description. */
  datatype StrWidths = StrWidths(s: int, p: int, n: int, d: int)

  const DefaultWidths := StrWidths(2, 3, 8, 13)

  /** The widths an FGPIO uses: those given, or the defaults. */
  function WidthsOrDefault(widths: Option<StrWidths>): (w: StrWidths)
    ensures widths.Some? ==> w == widths.value
    ensures widths.None? ==> w.s == 2 && w.p == 3 && w.n == 8 && w.d == 13
  {
    if widths.None? then DefaultWidths else widths.value
  }

  /** The pin argument of FGPIO, an int or a string. */
  datatype Pin = PinNumber(n: int) | PinText(t: string)

  /** `str(pin)`. */
  function PinString(pin: Pin): (r: string)
    ensures pin.PinText? ==> r == pin.t
    ensures pin.PinNumber? ==> 1 <= |r| && AllDigits(if r[0] == '-' then r[1..] else r)
    ensures pin.PinNumber? ==> DecimalToInt(r) == pin.n
    ensures pin.PinNumber? ==> r == IntToDecimal(pin.n)
  {
    match pin
    case PinText(t) => t
    case PinNumber(n) => IntDecimalRoundTrip(n); IntToDecimal(n)
  }

  /**
   * A formatted pin record. `right` selects the right-hand column, whose
   * fields run symbol, pin, name, description and are left-justified; the
   * left-hand column runs the other way and is right-justified.
   */
  datatype Fgpio = Fgpio(symbol: Symbol, pin: string, name: string, desc: string, right: bool, w: StrWidths)

  /** `FGPIO(symbol, pin, name, description, right, widths)`. */
  function NewFgpio(symbol: Symbol, pin: Pin, name: string, description: string, right: bool,
                    widths: Option<StrWidths>): (f: Fgpio)
    ensures f.symbol == symbol && f.name == name && f.right == right
    ensures f.pin == PinString(pin)
    ensures UnwrapDescription(f.desc) == description
    ensures f.desc == "" <==> description == ""
    ensures description != "" ==> f.desc == "(" + description + ")"
    ensures widths.None? ==> f.w == DefaultWidths
    ensures widths.Some? ==> f.w == widths.value
  {
    DescriptionRoundTrip(description);
    Fgpio(symbol, PinString(pin), name, WrapDescription(description), right, WidthsOrDefault(widths))
  }

  /**
   * What stands between two fields: the space before each line continuation
   * of the row's f-string, followed by the indentation of the next line,
   * which the string literal keeps.
   */
  const Gutter: string := " " + Spaces(20)

  /**
   * `FGPIO.__str__`: as wide as its four padded fields plus three gutters; a
   * right-column row starts with the coloured symbol, a left-column row ends
   * with it.
   */
  function Row(f: Fgpio): (r: string)
    ensures |r| == Max(|SymbolText(f.symbol)|, f.w.s) + Max(|f.pin|, f.w.p)
                   + Max(|f.name|, f.w.n) + Max(|f.desc|, f.w.d) + 3 * |Gutter|
    ensures |SymbolText(f.symbol)| <= |r|
    ensures f.right ==> r[..|SymbolText(f.symbol)|] == SymbolText(f.symbol)
    ensures !f.right ==> r[|r| - |SymbolText(f.symbol)|..] == SymbolText(f.symbol)
  {
    RowWith(SymbolText(f.symbol), f)
  }

  /** The row of `f` with `sym` standing for its rendered symbol. */
  function RowWith(sym: string, f: Fgpio): (r: string)
    ensures |r| == Max(|sym|, f.w.s) + Max(|f.pin|, f.w.p) + Max(|f.name|, f.w.n) + Max(|f.desc|, f.w.d) + 3 * |Gutter|
    ensures |sym| <= |r|
    ensures f.right ==> r[..|sym|] == sym
    ensures !f.right ==> r[|r| - |sym|..] == sym
  {
    if f.right then
      var c := Ljust(sym, f.w.s);
      var r := JoinFields(c, Ljust(f.pin, f.w.p), Ljust(f.name, f.w.n), Ljust(f.desc, f.w.d));
      PrefixOfPrefix(r, c, sym);
      r
    else
      var c := Rjust(sym, f.w.s);
      var r := JoinFields(Rjust(f.desc, f.w.d), Rjust(f.name, f.w.n), Rjust(f.pin, f.w.p), c);
      SuffixOfSuffix(r, c, sym);
      r
  }

  lemma PrefixOfPrefix(r: string, c: string, x: string)
    requires |x| <= |c| <= |r| && r[..|c|] == c && c[..|x|] == x
    ensures r[..|x|] == x
  {
    assert r[..|x|] == r[..|c|][..|x|];
  }

  lemma SuffixOfSuffix(r: string, c: string, x: string)
    requires |x| <= |c| <= |r| && r[|r| - |c|..] == c && c[|c| - |x|..] == x
    ensures r[|r| - |x|..] == x
  {
    assert r[|r| - |x|..] == r[|r| - |c|..][|c| - |x|..];
  }

  /** Four padded fields with the gutter between them. */
  function JoinFields(a: string, b: string, c: string, d: string): (r: string)
    ensures |r| == |a| + |b| + |c| + |d| + 3 * |Gutter|
    ensures r[..|a|] == a
    ensures r[|r| - |d|..] == d
  {
    var r := a + (Gutter + b + Gutter + c + Gutter) + d;
    assert r == a + (Gutter + b + Gutter + c + Gutter + d);
    r
  }

  /** Between the first and last fields: a gutter, the second field, a gutter, the third field, a gutter. */
  lemma JoinFieldsMiddle(a: string, b: string, c: string, d: string)
    ensures var r, g := JoinFields(a, b, c, d), |Gutter|;
      && r[|a|..|a| + g] == Gutter
      && r[|a| + g..|a| + g + |b|] == b
      && r[|a| + g + |b|..|a| + 2 * g + |b|] == Gutter
      && r[|a| + 2 * g + |b|..|a| + 2 * g + |b| + |c|] == c
      && r[|r| - |d| - g..|r| - |d|] == Gutter
  {
    var r, g := JoinFields(a, b, c, d), |Gutter|;
    assert r == a + Gutter + b + Gutter + c + Gutter + d;
    assert r[|a|..|a| + g] == Gutter;
    assert r[|a| + g..|a| + g + |b|] == b;
    assert r[|a| + g + |b|..|a| + 2 * g + |b|] == Gutter;
    assert r[|a| + 2 * g + |b|..|a| + 2 * g + |b| + |c|] == c;
    assert r[|r| - |d| - g..|r| - |d|] == Gutter;
  }

  /** The four fields of a record, unpadded, in the order its column shows them. */
  function FieldsShown(f: Fgpio): (r: seq<string>)
    ensures |r| == 4
    ensures f.right ==> r[0] == SymbolText(f.symbol) && r[3] == f.desc
    ensures !f.right ==> r[0] == f.desc && r[3] == SymbolText(f.symbol)
    ensures r[1] == (if f.right then f.pin else f.name) && r[2] == (if f.right then f.name else f.pin)
  {
    var sym := SymbolText(f.symbol);
    if f.right then [sym, f.pin, f.name, f.desc] else [f.desc, f.name, f.pin, sym]
  }

  /** The width of each field, in the same order. */
  function WidthsShown(f: Fgpio): (r: seq<int>)
    ensures |r| == 4
    ensures f.right ==> r[0] == f.w.s && r[3] == f.w.d
    ensures !f.right ==> r[0] == f.w.d && r[3] == f.w.s
    ensures r[1] == (if f.right then f.w.p else f.w.n) && r[2] == (if f.right then f.w.n else f.w.p)
  {
    if f.right then [f.w.s, f.w.p, f.w.n, f.w.d] else [f.w.d, f.w.n, f.w.p, f.w.s]
  }

  /** A field padded for its column: left-justified on the right side, right-justified on the left. */
  function Cell(x: string, w: int, right: bool): (r: string)
    ensures |r| == Max(|x|, w)
    ensures right ==> r[..|x|] == x && AllSpaces(r[|x|..])
    ensures !right ==> r[|r| - |x|..] == x && AllSpaces(r[..|r| - |x|])
  {
    if right then Ljust(x, w) else Rjust(x, w)
  }

  /**
   * A row is its four fields, each padded for its column to its width, in
   * column order, with the gutter between them.
   */
  lemma RowIsCells(f: Fgpio)
    ensures var xs, ws := FieldsShown(f), WidthsShown(f);
      Row(f) == JoinFields(Cell(xs[0], ws[0], f.right), Cell(xs[1], ws[1], f.right),
                           Cell(xs[2], ws[2], f.right), Cell(xs[3], ws[3], f.right))
  {
  }

  function Reverse<T>(s: seq<T>): (r: seq<T>)
    ensures |r| == |s|
    ensures forall i :: 0 <= i < |s| ==> r[i] == s[|s| - 1 - i]
  {
    if s == [] then [] else Reverse(s[1..]) + [s[0]]
  }

  /**
   * The left-side rendering of a record shows exactly the fields and widths
   * of its right-side rendering, in reverse order.
   */
  lemma LeftMirrorsRight(f: Fgpio)
    ensures FieldsShown(f.(right := false)) == Reverse(FieldsShown(f.(right := true)))
    ensures WidthsShown(f.(right := false)) == Reverse(WidthsShown(f.(right := true)))
  {
  }

  /**
   * Field by field, the two renderings of a record differ only in which side
   * of the field the (same) padding goes.
   */
  lemma LeftRightSamePadding(f: Fgpio, i: nat)
    requires i < 4
    ensures var x, w := FieldsShown(f.(right := true))[i], WidthsShown(f.(right := true))[i];
      exists pad :: AllSpaces(pad)
        && Cell(x, w, true) == x + pad
        && Cell(FieldsShown(f.(right := false))[3 - i], WidthsShown(f.(right := false))[3 - i], false) == pad + x
  {
    var x, w := FieldsShown(f.(right := true))[i], WidthsShown(f.(right := true))[i];
    LeftMirrorsRight(f);
    JustifyMirror(x, w);
  }

  /**
   * Under the default widths the coloured symbol, always longer than two
   * characters, is never padded.
   */
  lemma DefaultSymbolUnpadded(f: Fgpio)
    requires f.w == DefaultWidths
    ensures Cell(SymbolText(f.symbol), f.w.s, f.right) == SymbolText(f.symbol)
  {
    JustifyWideField(SymbolText(f.symbol), f.w.s);
  }

  /**
   * A record made with an empty description shows no parentheses in its
   * description column: the cell is spaces only.
   */
  lemma EmptyDescriptionIsBlank(symbol: Symbol, pin: Pin, name: string, right: bool, widths: Option<StrWidths>)
    ensures var f := NewFgpio(symbol, pin, name, "", right, widths);
      f.desc == "" && AllSpaces(Cell(f.desc, f.w.d, right))
  {
    var f := NewFgpio(symbol, pin, name, "", right, widths);
    assert Cell(f.desc, f.w.d, right) == Spaces(f.w.d);
  }

  /**
   * Pin 1, "3v3", described as "Power", in the left column with the default
   * widths: the description first, right-justified, the coloured symbol last.
   */
  lemma LeftRowExample(sym: Symbol)
    ensures Row(NewFgpio(sym, PinNumber(1), "3v3", "Power", false, None))
         == JoinFields("      (Power)", "     3v3", "  1", SymbolText(sym))
  {
    var f := NewFgpio(sym, PinNumber(1), "3v3", "Power", false, None);
    assert f.pin == "1";
    assert f.desc == "(Power)";
    LeftRowPadding();
    JustifyWideField(SymbolText(sym), 2);
    assert Row(f) == RowWith(SymbolText(sym), f);
  }

  /** The default-width right-justified fields of the left-column example. */
  lemma LeftRowPadding()
    ensures Rjust("(Power)", 13) == "      (Power)"
    ensures Rjust("3v3", 8) == "     3v3"
    ensures Rjust("1", 3) == "  1"
  {
    assert Spaces(6) == "      ";
    assert Spaces(5) == "     ";
    assert Spaces(2) == "  ";
  }

  /** A map: pin records and, possibly, legend entries. */
  datatype Map = Map(fgpios: seq<Fgpio>, legends: Option<seq<Legend>>)

  const NoLegend: string := "No legend available"

  /** The lines `print_legend` prints; `show_err` has no effect. */
  function LegendLines(m: Map, showErr: bool): (r: seq<string>)
    ensures m.legends.None? ==> r == [NoLegend]
    ensures m.legends.Some? ==> |r| == |m.legends.value|
    ensures m.legends.Some? ==> forall i :: 0 <= i < |r| ==> r[i] == LegendText(m.legends.value[i])
  {
    match m.legends
    case None => [NoLegend]
    case Some(ls) => LegendTexts(ls)
  }

  /** `show` applied to every element, in order: what a `for … print` loop prints. */
  function Each<T>(show: T -> string, xs: seq<T>): (r: seq<string>)
    ensures |r| == |xs|
    ensures forall i :: 0 <= i < |xs| ==> r[i] == show(xs[i])
  {
    if xs == [] then []
    else
      var rest := Each(show, xs[1..]);
      assert forall i :: 1 <= i < |xs| ==> xs[i] == xs[1..][i - 1];
      [show(xs[0])] + rest
  }

  /** One line per legend entry, in order. */
  function LegendTexts(ls: seq<Legend>): (r: seq<string>)
    ensures |r| == |ls|
    ensures forall i :: 0 <= i < |ls| ==> r[i] == LegendText(ls[i])
  {
    Each(LegendText, ls)
  }

  /** The lines `print_map` prints. */
  function MapLines(m: Map): (r: seq<string>)
    ensures |r| == |m.fgpios|
    ensures forall i :: 0 <= i < |r| ==> r[i] == Row(m.fgpios[i])
  {
    Rows(m.fgpios)
  }

  /** One row per record, in order. */
  function Rows(fs: seq<Fgpio>): (r: seq<string>)
    ensures |r| == |fs|
    ensures forall i :: 0 <= i < |fs| ==> r[i] == Row(fs[i])
  {
    Each(Row, fs)
  }

  /** Printing two lists of records one after the other prints their rows one after the other. */
  lemma {:induction false} RowsAppend(a: seq<Fgpio>, b: seq<Fgpio>)
    ensures Rows(a + b) == Rows(a) + Rows(b)
  {
    if a == [] {
      assert a + b == b;
    } else {
      assert (a + b)[1..] == a[1..] + b;
      RowsAppend(a[1..], b);
    }
  }
}
