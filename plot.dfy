// The result serialiser (metaheuristic/plot.cpp): a table of titled
// integer columns rendered as CSV and as a pgfplots TeX document.
module Plots {
  /** The column separator `sep`. */
  const Sep: string := ","

  /** The width of `size_t`, in which the figure loop bound is computed. */
  const SizeModulus: int := 0x1_0000_0000_0000_0000

  // ---------------------------------------------------------------------
  // Decimal rendering of the cells

  function DigitChar(d: int): char
    requires 0 <= d < 10
  {
    ('0' as int + d) as char
  }

  function DigitValue(c: char): int
  {
    c as int - '0' as int
  }

  predicate IsDigits(s: string)
  {
    forall k :: 0 <= k < |s| ==> '0' <= s[k] <= '9'
  }

  /** Only a sign and digits. */
  predicate NumeralChars(s: string)
  {
    forall k :: 0 <= k < |s| ==> s[k] == '-' || '0' <= s[k] <= '9'
  }

  /** The decimal digits of `n`, most significant first, without leading zeros. */
  function NatToString(n: nat): (s: string)
    ensures |s| >= 1 && IsDigits(s)
    ensures |s| > 1 ==> s[0] != '0'
  {
    if n < 10 then [DigitChar(n)] else NatToString(n / 10) + [DigitChar(n % 10)]
  }

  /** The value of a string of digits. */
  function ParseNat(s: string): nat
  {
    if s == [] then 0
    else
      var d := DigitValue(s[|s| - 1]);
      ParseNat(s[..|s| - 1]) * 10 + (if 0 <= d then d else 0)
  }

  /** The decimal text of a cell: a minus sign before the digits of a negative value. */
  function IntToString(i: int): (s: string)
    ensures |s| >= 1
    ensures NumeralChars(s)
  {
    if i < 0 then "-" + NatToString(-i) else NatToString(i)
  }

  function ParseInt(s: string): int
  {
    if |s| >= 1 && s[0] == '-' then -(ParseNat(s[1..]) as int) else ParseNat(s)
  }

  /** Reading the digits back gives the number. */
  lemma {:induction false} NatRoundTrip(n: nat)
    ensures ParseNat(NatToString(n)) == n
  {
    if n >= 10 {
      NatRoundTrip(n / 10);
      var s := NatToString(n);
      assert s[..|s| - 1] == NatToString(n / 10);
    }
  }

  /** Reading a rendered cell back gives the cell. */
  lemma IntRoundTrip(i: int)
    ensures ParseInt(IntToString(i)) == i
  {
    if i < 0 {
      NatRoundTrip(-i);
      assert IntToString(i)[1..] == NatToString(-i);
    } else {
      NatRoundTrip(i);
    }
  }

  // ---------------------------------------------------------------------
  // CSV

  /** Each title followed by the separator. */
  function Header(titles: seq<string>): string
  {
    if titles == [] then "" else Header(titles[..|titles| - 1]) + titles[|titles| - 1] + Sep
  }

  /** A cell's decimal text followed by the separator. */
  function Cell(v: int): string
  {
    IntToString(v) + Sep
  }

  /** Each cell of a row, in order. */
  function Row(vec: seq<int>): string
  {
    if vec == [] then "" else Row(vec[..|vec| - 1]) + Cell(vec[|vec| - 1])
  }

  lemma AppendAssoc(a: string, b: string, c: string)
    ensures (a + b) + c == a + (b + c)
  {
  }

  /** One newline-terminated row per entry of `values`, in order. */
  function Rows(values: seq<seq<int>>): string
  {
    if values == [] then "" else Rows(values[..|values| - 1]) + Line(values[|values| - 1])
  }

  /** A row and its newline. */
  function Line(vec: seq<int>): string
  {
    Row(vec) + "\n"
  }

  /** The whole CSV text: the header line, then the rows. */
  function Csv(titles: seq<string>, values: seq<seq<int>>): string
  {
    Header(titles) + "\n" + Rows(values)
  }

  /** The number of newlines in `s`. */
  function Newlines(s: string): nat
  {
    multiset(s)['\n']
  }

  predicate NoNewlines(titles: seq<string>)
  {
    forall k :: 0 <= k < |titles| ==> '\n' !in titles[k]
  }

  lemma {:induction false} HeaderNoNewline(titles: seq<string>)
    requires NoNewlines(titles)
    ensures Newlines(Header(titles)) == 0
  {
    if titles != [] {
      HeaderNoNewline(titles[..|titles| - 1]);
      assert '\n' !in titles[|titles| - 1];
    }
  }

  lemma {:induction false} RowNoNewline(vec: seq<int>)
    ensures Newlines(Row(vec)) == 0
  {
    if vec != [] {
      RowNoNewline(vec[..|vec| - 1]);
      var s := IntToString(vec[|vec| - 1]);
      assert NumeralChars(s);
      assert '\n' !in s;
      assert Cell(vec[|vec| - 1]) == s + Sep;
    }
  }

  lemma {:induction false} RowsNewlines(values: seq<seq<int>>)
    ensures Newlines(Rows(values)) == |values|
  {
    if values != [] {
      RowsNewlines(values[..|values| - 1]);
      RowNoNewline(values[|values| - 1]);
      assert Newlines(Line(values[|values| - 1])) == 1;
    }
  }

  /** With newline-free titles the CSV has a header line plus one line per row. */
  lemma CsvLines(titles: seq<string>, values: seq<seq<int>>)
    requires NoNewlines(titles)
    ensures Newlines(Csv(titles, values)) == 1 + |values|
  {
    HeaderNoNewline(titles);
    RowsNewlines(values);
  }

  // ---------------------------------------------------------------------
  // TeX

  /**
   * The fixed text of the TeX document: the class line and the remaining
   * preamble, the four pieces a figure is assembled from around its title,
   * and the closing line.
   */
  datatype TexText = TexText(classLine: string, packages: string,
                             figOpen: string, figLegend: string, figTable: string, figClose: string,
                             closing: string)

  /** The text `create_tex()` writes. */
  const PgfText: TexText := TexText(
    "\\documentclass{standalone}\n",
    "\\usepackage{filecontents}\n\\usepackage{pgfplots, pgfplotstable}\n\\tikzset{mark options={mark size=.1, line width=.3pt}}\n\\begin{document}\n",
    "\\begin{tikzpicture}[only marks, y=.5cm]\n\\begin{axis}[ymin=0, title={},xlabel = {Energy},ylabel = {",
    "}, cycle list name=black white, smooth,legend entries={",
    "},legend pos=outer north east,]\n\\addplot table [col sep = comma, x = energy, y =",
    ", ] {data.csv};\n\\end{axis}\n\\end{tikzpicture}\n",
    "\\end{document}")

  function Preamble(x: TexText): string
  {
    x.classLine + x.packages
  }

  /** The scatter plot of one objective against the energy. */
  function Figure(x: TexText, t: string): string
  {
    x.figOpen + t + x.figLegend + t + Sep + x.figTable + t + x.figClose
  }

  /** One figure per title, in order. */
  function Figures(x: TexText, ts: seq<string>): string
  {
    if ts == [] then "" else Figures(x, ts[..|ts| - 1]) + Figure(x, ts[|ts| - 1])
  }

  /** The loop bound `titles.size()-2` as written: an unsigned subtraction. */
  function FigureCountAsWritten(n: nat): int
  {
    (n - 2) % SizeModulus
  }

  /**
   * With fewer than two titles the unsigned bound wraps round, so the loop
   * goes on to read `titles[n]`, one past the last title.
   */
  lemma FigureCountWraps(n: nat)
    requires n < 2
    ensures FigureCountAsWritten(n) == SizeModulus - 2 + n
    ensures FigureCountAsWritten(n) > n
  {
  }

  /** The number of figures intended: every title but the last two, none when there are fewer. */
  function FigureCount(n: nat): (c: nat)
    ensures c <= n
    ensures 2 <= n < SizeModulus ==> c == FigureCountAsWritten(n)
  {
    if n >= 2 then n - 2 else 0
  }

  /** The whole TeX document. */
  function Tex(x: TexText, titles: seq<string>): string
  {
    Preamble(x) + Figures(x, titles[..FigureCount(|titles|)]) + x.closing
  }

  /** The document opens with its class line and ends with its closing line. */
  lemma TexFrame(x: TexText, titles: seq<string>)
    ensures |Tex(x, titles)| >= |x.classLine| + |x.closing|
    ensures Tex(x, titles)[..|x.classLine|] == x.classLine
    ensures Tex(x, titles)[|Tex(x, titles)| - |x.closing|..] == x.closing
  {
    var body := Figures(x, titles[..FigureCount(|titles|)]);
    assert Tex(x, titles) == x.classLine + (x.packages + body + x.closing);
    assert Tex(x, titles) == (Preamble(x) + body) + x.closing;
  }

  /** Figure `k` of the document plots title `k`: the figures follow the titles in order. */
  lemma {:induction false} FiguresInOrder(x: TexText, ts: seq<string>, k: nat)
    requires k < |ts|
    ensures Figures(x, ts) == Figures(x, ts[..k]) + Figure(x, ts[k]) + Figures(x, ts[k + 1..])
  {
    var init := ts[..|ts| - 1];
    if k == |ts| - 1 {
      assert ts[k + 1..] == [];
      assert init == ts[..k];
    } else {
      FiguresInOrder(x, init, k);
      assert init[..k] == ts[..k];
      assert init[k + 1..] == ts[k + 1..|ts| - 1];
      assert ts[k + 1..][..|ts[k + 1..]| - 1] == init[k + 1..];
      calc {
        Figures(x, ts);
        Figures(x, init) + Figure(x, ts[|ts| - 1]);
        Figures(x, ts[..k]) + Figure(x, ts[k]) + Figures(x, init[k + 1..]) + Figure(x, ts[|ts| - 1]);
        Figures(x, ts[..k]) + Figure(x, ts[k]) + (Figures(x, init[k + 1..]) + Figure(x, ts[|ts| - 1]));
        Figures(x, ts[..k]) + Figure(x, ts[k]) + Figures(x, ts[k + 1..]);
      }
    }
  }

  // ---------------------------------------------------------------------
  // The plot object

  class Plot {
    /** The fixed text `create_tex()` writes around the titles. */
    const texText: TexText
    var titles: seq<string>
    var values: seq<seq<int>>
    var csv: string
    var tex: string

    /** `Plot(titles, values)`: stores both and renders both texts. */
    constructor (titles0: seq<string>, values0: seq<seq<int>>)
      ensures titles == titles0 && values == values0
      ensures texText == PgfText
      ensures csv == Csv(titles0, values0) && tex == Tex(PgfText, titles0)
    {
      texText := PgfText;
      titles := titles0;
      values := values0;
      csv := "";
      tex := "";
      new;
      CreateCsv();
      CreateTex();
    }

    /** `create_csv()`: the header line, then one line per row. */
    method CreateCsv()
      modifies this`csv
      ensures titles == old(titles) && values == old(values) && tex == old(tex)
      ensures csv == Csv(titles, values)
    {
      csv := "";
      var k := 0;
      while k < |titles|
        invariant 0 <= k <= |titles|
        invariant csv == Header(titles[..k])
      {
        assert titles[..k + 1][..k] == titles[..k];
        csv := csv + titles[k] + Sep;
        k := k + 1;
      }
      assert titles[..k] == titles;
      csv := csv + "\n";
      var r := 0;
      while r < |values|
        invariant 0 <= r <= |values|
        invariant csv == Header(titles) + "\n" + Rows(values[..r])
      {
        AppendAssoc(Header(titles) + "\n", Rows(values[..r]), Line(values[r]));
        AppendRow(values[r]);
        assert values[..r + 1][..r] == values[..r];
        r := r + 1;
      }
      assert values[..r] == values;
    }

    /** One pass of the inner loop of `create_csv()`: a row's cells and its newline. */
    method AppendRow(vec: seq<int>)
      modifies this`csv
      ensures csv == old(csv) + Line(vec)
    {
      ghost var start := csv;
      var c := 0;
      while c < |vec|
        invariant 0 <= c <= |vec|
        invariant csv == start + Row(vec[..c])
      {
        var cell := Cell(vec[c]);
        assert Row(vec[..c + 1]) == Row(vec[..c]) + cell by {
          assert vec[..c + 1][..c] == vec[..c];
        }
        AppendAssoc(start, Row(vec[..c]), cell);
        csv := csv + cell;
        c := c + 1;
      }
      assert vec[..c] == vec;
      AppendAssoc(start, Row(vec), "\n");
      csv := csv + "\n";
    }

    /** `create_tex()` with the intended figure count. */
    method CreateTex()
      modifies this`tex
      ensures titles == old(titles) && values == old(values) && csv == old(csv)
      ensures tex == Tex(texText, titles)
    {
      tex := Preamble(texText);
      var i := 0;
      while i < FigureCount(|titles|)
        invariant 0 <= i <= FigureCount(|titles|)
        invariant tex == Preamble(texText) + Figures(texText, titles[..i])
      {
        assert titles[..i + 1][..i] == titles[..i];
        tex := tex + Figure(texText, titles[i]);
        i := i + 1;
      }
      assert titles[..i] == titles[..FigureCount(|titles|)];
      tex := tex + texText.closing;
    }
  }
}
