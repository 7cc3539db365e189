/**
 Amounts of an invoice: every line carries a final (tax included) price, from which the
 net amount and the tax are split. Amounts are in cents; a quantity counts units of
 0.0001 and a rate counts hundredths of a percent point, the scales of the columns.
 */
module Vat {
  import opened Rounding

  type Quantity = q: nat | 0 < q < 1_000_000_000_000 witness 1
  type Price = p: nat | p < 1_000_000_000_000_000
  type Rate = r: nat | r <= 10_000

  datatype Line = Line(description: string, quantity: Quantity, price: Price)

  /** What one line contributes. */
  datatype Split = Split(final: nat, net: nat, vat: int)

  datatype Amounts = Amounts(rows: seq<Split>, net: nat, vat: int, total: nat)

  /** One plus the rate, in ten-thousandths. */
  function Factor(rate: Rate): (f: nat)
    ensures 10_000 <= f <= 20_000
  {
    10_000 + rate
  }

  function LineFinal(line: Line): nat {
    HalfUp(line.quantity * line.price, 10_000)
  }

  /** The net amount as the service computes it: decimal division, then quantization. */
  function DecimalNet(final: nat, rate: Rate): nat {
    Quantize(Divide(10_000 * final, 100 * Factor(rate)))
  }

  /** The net amount as the law states it: the exact quotient rounded once. */
  function ExactNet(final: nat, rate: Rate): nat {
    HalfUp(10_000 * final, Factor(rate))
  }

  function SplitFinal(final: nat, rate: Rate): Split {
    var net := DecimalNet(final, rate);
    Split(final, net, final - net)
  }

  function SplitLine(line: Line, rate: Rate): Split {
    SplitFinal(LineFinal(line), rate)
  }

  /** The amounts of a request: lines in order and their sums. */
  function AmountsOf(lines: seq<Line>, rate: Rate): Amounts {
    if lines == [] then Amounts([], 0, 0, 0)
    else
      Add(AmountsOf(lines[..|lines| - 1], rate), SplitLine(lines[|lines| - 1], rate))
  }

  function Add(a: Amounts, s: Split): Amounts {
    Amounts(a.rows + [s], a.net + s.net, a.vat + s.vat, a.total + s.final)
  }

  lemma AmountsOfPrefix(lines: seq<Line>, i: nat, rate: Rate)
    requires i < |lines|
    ensures AmountsOf(lines[..i + 1], rate) == Add(AmountsOf(lines[..i], rate), SplitLine(lines[i], rate))
  {
    assert lines[..i + 1][..i] == lines[..i];
  }

  /** A line's product has at most 27 digits, so it is exact, and its final amount at most 23. */
  lemma LineFinalBound(line: Line)
    ensures line.quantity * line.price < TEN27
    ensures LineFinal(line) < 100 * TEN21
  {
    MulMonotone(line.quantity, 999_999_999_999, line.price);
    assert line.quantity * line.price <= 999_999_999_999 * 999_999_999_999_999;
    var q := LineFinal(line);
    assert (2 * q - 1) * 10_000 <= 2 * (line.quantity * line.price);
  }

  /**
   Two-stage rounding is harmless: for every line amount the columns can hold and every
   rate from 0 to 100, the computed net amount is the exact half-up net amount.
   */
  lemma NetIsExact(line: Line, rate: Rate)
    ensures DecimalNet(LineFinal(line), rate) == ExactNet(LineFinal(line), rate)
  {
    LineFinalBound(line);
    NetIsExactFor(LineFinal(line), rate);
  }

  lemma NetIsExactFor(final: nat, rate: Rate)
    requires final < 100 * TEN21
    ensures DecimalNet(final, rate) == ExactNet(final, rate)
  {
    TwoStageDivision(10_000 * final, Factor(rate));
  }

  /** `vat` is within half a cent, `slack` times over, of the tax `final * rate / f`. */
  predicate NearTax(vat: int, final: nat, rate: nat, f: nat, slack: nat) {
    var error: int := 2 * (vat * f - final * rate);
    -1 * (slack * f) <= error <= slack * f
  }

  /**
   Each line's final amount is the nearest cent of quantity times price, ties up; it balances,
   no part is negative, and its tax is the nearest cent.
   */
  lemma LineSplit(line: Line, rate: Rate)
    ensures var s, exact := SplitLine(line, rate), 2 * (line.quantity * line.price);
      && (2 * s.final - 1) * 10_000 <= exact < (2 * s.final + 1) * 10_000
      && s.net + s.vat == s.final
      && 0 <= s.net <= s.final && 0 <= s.vat
      && NearTax(s.vat, s.final, rate, 10_000 + rate, 1)
  {
    NetIsExact(line, rate);
    RemainderIsTax(LineFinal(line), ExactNet(LineFinal(line), rate), rate, Factor(rate));
  }

  lemma RemainderIsTax(final: nat, net: nat, rate: Rate, f: nat)
    requires f == 10_000 + rate
    requires (2 * net - 1) * f <= 20_000 * final < (2 * net + 1) * f
    ensures net <= final && NearTax(final - net, final, rate, f, 1)
  {
    assert (final - net) * f - final * rate == 10_000 * final - net * f;
    assert (2 * net - 1) * f == 2 * (net * f) - f;
    assert (2 * net + 1) * f == 2 * (net * f) + f;
    if net > final {
      MulMonotone(final + 1, net, f);
      MulMonotone(10_000, f, final);
    }
  }

  /** The sums of some rows, first to last. */
  function SumOf(rows: seq<Split>): (int, int, int) {
    if rows == [] then (0, 0, 0)
    else
      var rest := SumOf(rows[1..]);
      (rows[0].net + rest.0, rows[0].vat + rest.1, rows[0].final + rest.2)
  }

  lemma {:induction false} SumOfAppend(rows: seq<Split>, s: Split)
    ensures SumOf(rows + [s]) == (SumOf(rows).0 + s.net, SumOf(rows).1 + s.vat, SumOf(rows).2 + s.final)
  {
    if rows == [] {
      assert rows + [s] == [s];
    } else {
      assert (rows + [s])[1..] == rows[1..] + [s];
      SumOfAppend(rows[1..], s);
    }
  }

  predicate Summed(a: Amounts) {
    SumOf(a.rows) == (a.net, a.vat, a.total)
  }

  lemma AddSums(a: Amounts, s: Split)
    requires Summed(a)
    ensures Summed(Add(a, s))
  {
    SumOfAppend(a.rows, s);
  }

  lemma {:induction false} HeaderSums(lines: seq<Line>, rate: Rate)
    ensures Summed(AmountsOf(lines, rate)) && |AmountsOf(lines, rate).rows| == |lines|
  {
    if lines != [] {
      var k := |lines| - 1;
      HeaderSums(lines[..k], rate);
      AddSums(AmountsOf(lines[..k], rate), SplitLine(lines[k], rate));
    }
  }

  predicate LineByLine(rows: seq<Split>, lines: seq<Line>, rate: Rate) {
    |rows| == |lines| && forall i :: 0 <= i < |lines| ==> rows[i] == SplitLine(lines[i], rate)
  }

  lemma LineAdded(a: Amounts, lines: seq<Line>, line: Line, rate: Rate)
    requires LineByLine(a.rows, lines, rate)
    ensures LineByLine(Add(a, SplitLine(line, rate)).rows, lines + [line], rate)
  {
  }

  lemma {:induction false} HeaderRows(lines: seq<Line>, rate: Rate)
    ensures LineByLine(AmountsOf(lines, rate).rows, lines, rate)
  {
    if lines != [] {
      var k := |lines| - 1;
      HeaderRows(lines[..k], rate);
      LineAdded(AmountsOf(lines[..k], rate), lines[..k], lines[k], rate);
      assert lines[..k] + [lines[k]] == lines;
    }
  }

  lemma {:induction false} HeaderTax(lines: seq<Line>, rate: Rate)
    ensures var a := AmountsOf(lines, rate);
      && a.net + a.vat == a.total && 0 <= a.net <= a.total && 0 <= a.vat
      && NearTax(a.vat, a.total, rate, Factor(rate), |lines|)
  {
    if lines != [] {
      var k := |lines| - 1;
      HeaderTax(lines[..k], rate);
      LineSplit(lines[k], rate);
      var b, s := AmountsOf(lines[..k], rate), SplitLine(lines[k], rate);
      NearTaxAdds(b.vat, b.total, k, s.vat, s.final, rate, Factor(rate));
    }
  }

  /**
   The header is the sum of its lines, balances like them, and its tax is within half a cent per line of the
   exact tax.
   */
  lemma HeaderSplit(lines: seq<Line>, rate: Rate)
    ensures var a := AmountsOf(lines, rate);
      && |a.rows| == |lines|
      && LineByLine(a.rows, lines, rate)
      && Summed(a)
      && a.net + a.vat == a.total
      && 0 <= a.net <= a.total && 0 <= a.vat
      && NearTax(a.vat, a.total, rate, 10_000 + rate, |lines|)
  {
    HeaderSums(lines, rate);
    HeaderTax(lines, rate);
    HeaderRows(lines, rate);
  }

  lemma NearTaxAdds(v1: int, t1: nat, k: nat, v2: int, t2: nat, rate: nat, f: nat)
    requires NearTax(v1, t1, rate, f, k) && NearTax(v2, t2, rate, f, 1)
    ensures NearTax(v1 + v2, t1 + t2, rate, f, k + 1)
  {
    assert (v1 + v2) * f - (t1 + t2) * rate == (v1 * f - t1 * rate) + (v2 * f - t2 * rate);
    assert (k + 1) * f == k * f + f;
  }

  /** The gross price of a net amount, rounded to cents. */
  function GrossUp(net: nat, rate: Rate): nat {
    HalfUp(net * Factor(rate), 10_000)
  }

  /** Splitting undoes grossing up: net to rounded gross to net is the identity. */
  lemma SplitInvertsGrossUp(net: nat, rate: Rate)
    requires net <= 10 * TEN21
    ensures var g := GrossUp(net, rate); g >= net && SplitFinal(g, rate) == Split(g, net, g - net)
  {
    var g := GrossUp(net, rate);
    GrossBounds(net, g, rate, Factor(rate));
    NetIsExactFor(g, rate);
    NearestIsUnique(10_000 * g, Factor(rate), ExactNet(g, rate), net);
  }

  lemma GrossBounds(net: nat, g: nat, rate: Rate, f: nat)
    requires f == 10_000 + rate && net <= 10 * TEN21
    requires (2 * g - 1) * 10_000 <= 2 * (net * f) < (2 * g + 1) * 10_000
    ensures net <= g < 100 * TEN21
    ensures (2 * net - 1) * f <= 2 * (10_000 * g) < (2 * net + 1) * f
  {
    MulMonotone(10_000, f, net);
    MulMonotone(f, 20_000, net);
    assert net * f == 10_000 * net + net * rate;
    if rate == 0 { assert net * f == 10_000 * net; }
    assert (2 * net - 1) * f == 2 * (net * f) - f;
    assert (2 * net + 1) * f == 2 * (net * f) + f;
  }

  /** The accumulating loop of the service computes exactly `AmountsOf`. */
  method CalculateAmounts(lines: seq<Line>, rate: Rate) returns (a: Amounts)
    ensures a == AmountsOf(lines, rate)
  {
    var rows: seq<Split>, net: nat, vat: int, total: nat := [], 0, 0, 0;
    for i := 0 to |lines|
      invariant Amounts(rows, net, vat, total) == AmountsOf(lines[..i], rate)
    {
      AmountsOfPrefix(lines, i, rate);
      var row := SplitLine(lines[i], rate);
      rows := rows + [row];
      net, vat, total := net + row.net, vat + row.vat, total + row.final;
    }
    assert lines[..|lines|] == lines;
    a := Amounts(rows, net, vat, total);
  }
}
