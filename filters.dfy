/**
 * The filter bank: an identity filter and a second-order IIR low-pass section
 * whose history is seeded with the first sample it sees, and the factory
 * that hands out fresh instances with the four Bessel coefficient sets.
 * Doubles are modelled as reals, so rounding is not part of the model.
 */
module Filters {

  /** The five fixed coefficients of a second-order section. */
  datatype Coefficients = Coefficients(a1: real, a2: real, b0: real, b1: real, b2: real)

  /** Output per unit of a constant input once the history holds that input. */
  function DcGain(c: Coefficients): real {
    c.b0 + c.b1 + c.b2 + c.a1 + c.a2
  }

  /** Bessel low-pass sets with nominal delays of 5, 10, 20 and 40 samples at zero frequency. */
  const BesselD5Coefficients := Coefficients(1.4585675700036072, -0.548818563146645,
    0.022562748285759465, 0.04512549657151893, 0.022562748285759465)
  const BesselD10Coefficients := Coefficients(1.7148814350679784, -0.7408031672603894,
    0.006480433048102745, 0.01296086609620549, 0.006480433048102745)
  const BesselD20Coefficients := Coefficients(1.8537602284019106, -0.8607232472557577,
    0.0017407547134617684, 0.0034815094269235367, 0.0017407547134617684)
  const BesselD40Coefficients := Coefficients(1.9259427527737245, -0.9277488903113448,
    0.0004515343844050649, 0.0009030687688101299, 0.0004515343844050649)

  /** The history of a second-order section: two prior inputs, two prior outputs,
      and whether no sample has been consumed yet. */
  datatype IirState = IirState(x1: real, x2: real, y1: real, y2: real, first: bool)

  /** The state of a newly created section: numeric fields at their default 0, `first` set. */
  const Unstepped := IirState(0.0, 0.0, 0.0, 0.0, true)

  /** The history the recurrence reads: on the first sample every slot holds that sample. */
  function Seeded(s: IirState, x: real): IirState {
    if s.first then IirState(x, x, x, x, false) else s
  }

  /** The right-hand side of the second-order difference equation for output `y[i]`,
      given `x[i]`, `x[i-1]`, `x[i-2]`, `y[i-1]` and `y[i-2]`. */
  function Recurrence(c: Coefficients, x: real, x1: real, x2: real, y1: real, y2: real): real {
    x2 * c.b2 + x1 * c.b1 + x * c.b0 + y2 * c.a2 + y1 * c.a1
  }

  /** The value one step returns: the recurrence over the seeded history. */
  function Output(c: Coefficients, s: IirState, x: real): real {
    var h := Seeded(s, x);
    Recurrence(c, x, h.x1, h.x2, h.y1, h.y2)
  }

  /** The history after one step: inputs and outputs shifted by one place. */
  function Next(c: Coefficients, s: IirState, x: real): IirState {
    var h := Seeded(s, x);
    IirState(x, h.x1, Output(c, s, x), h.y1, false)
  }

  /** The outputs of feeding `xs` one after another, starting from history `s`. */
  function Outputs(c: Coefficients, s: IirState, xs: seq<real>): (ys: seq<real>)
    ensures |ys| == |xs|
    decreases |xs|
  {
    if xs == [] then [] else [Output(c, s, xs[0])] + Outputs(c, Next(c, s, xs[0]), xs[1..])
  }

  /** The history after feeding `xs` one after another, starting from `s`. */
  function After(c: Coefficients, s: IirState, xs: seq<real>): IirState
    decreases |xs|
  {
    if xs == [] then s else After(c, Next(c, s, xs[0]), xs[1..])
  }

  /** Input `j` of the stream `xs` fed from history `s`; the two places before the
      stream starts read the history the first step sees. */
  function InputAt(s: IirState, xs: seq<real>, j: int): real
    requires xs != [] && -2 <= j < |xs|
  {
    if j >= 0 then xs[j] else if j == -1 then Seeded(s, xs[0]).x1 else Seeded(s, xs[0]).x2
  }

  /** Output `j` of the stream `xs` fed from history `s`, with the same convention. */
  function OutputAt(c: Coefficients, s: IirState, xs: seq<real>, j: int): real
    requires xs != [] && -2 <= j < |xs|
  {
    if j >= 0 then Outputs(c, s, xs)[j] else if j == -1 then Seeded(s, xs[0]).y1 else Seeded(s, xs[0]).y2
  }

  /** Shifting the history after every step makes the output stream obey the
      second-order difference equation over the input stream. */
  lemma {:induction false} DifferenceEquation(c: Coefficients, s: IirState, xs: seq<real>, i: nat)
    requires i < |xs|
    ensures Outputs(c, s, xs)[i] ==
      Recurrence(c, xs[i], InputAt(s, xs, i - 1), InputAt(s, xs, i - 2),
                 OutputAt(c, s, xs, i - 1), OutputAt(c, s, xs, i - 2))
    decreases i
  {
    var n := Next(c, s, xs[0]);
    assert Outputs(c, s, xs) == [Output(c, s, xs[0])] + Outputs(c, n, xs[1..]);
    if i > 0 {
      var tail := xs[1..];
      DifferenceEquation(c, n, tail, i - 1);
      assert Seeded(n, tail[0]) == n;
      assert InputAt(n, tail, i - 2) == InputAt(s, xs, i - 1);
      assert InputAt(n, tail, i - 3) == InputAt(s, xs, i - 2);
      assert OutputAt(c, n, tail, i - 2) == OutputAt(c, s, xs, i - 1);
      assert OutputAt(c, n, tail, i - 3) == OutputAt(c, s, xs, i - 2);
    }
  }

  /** From a new section, the outputs follow the difference equation, with the first
      input standing in for every input and output before the stream starts. */
  lemma UnsteppedDifferenceEquation(c: Coefficients, xs: seq<real>, i: nat)
    requires i < |xs|
    ensures var ys := Outputs(c, Unstepped, xs);
      ys[i] == Recurrence(c, xs[i],
        if i >= 1 then xs[i - 1] else xs[0], if i >= 2 then xs[i - 2] else xs[0],
        if i >= 1 then ys[i - 1] else xs[0], if i >= 2 then ys[i - 2] else xs[0])
  {
    DifferenceEquation(c, Unstepped, xs, i);
  }

  /** On the first sample the history is seeded with it, so the output is the sample times the DC gain. */
  lemma FirstOutputIsGainTimesInput(c: Coefficients, s: IirState, x: real)
    requires s.first
    ensures Output(c, s, x) == x * DcGain(c)
    ensures Next(c, s, x) == IirState(x, x, x * DcGain(c), x, false)
  {
    calc {
      Output(c, s, x);
      x * c.b2 + x * c.b1 + x * c.b0 + x * c.a2 + x * c.a1;
      x * DcGain(c);
    }
  }

  /** `first` is cleared by the first sample and never set again. */
  lemma {:induction false} FirstNeverReturns(c: Coefficients, s: IirState, xs: seq<real>)
    ensures After(c, s, xs).first <==> s.first && xs == []
    decreases |xs|
  {
    if xs != [] {
      var n := Next(c, s, xs[0]);
      assert !n.first;
      if xs[1..] != [] {
        FirstNeverReturns(c, n, xs[1..]);
      }
    }
  }

  /** A history that holds `x` in all four slots. */
  predicate SettledAt(s: IirState, x: real) {
    s == IirState(x, x, x, x, false)
  }

  /** With DC gain exactly 1, a constant input fed from the first sample on (or into a
      history already settled at it) comes out unchanged at every step. */
  lemma {:induction false} ConstantInputPassesThrough(c: Coefficients, s: IirState, xs: seq<real>, x: real)
    requires DcGain(c) == 1.0
    requires s.first || SettledAt(s, x)
    requires forall i :: 0 <= i < |xs| ==> xs[i] == x
    ensures forall i :: 0 <= i < |xs| ==> Outputs(c, s, xs)[i] == x
    ensures xs != [] ==> SettledAt(After(c, s, xs), x)
    decreases |xs|
  {
    if xs != [] {
      var h := Seeded(s, xs[0]);
      assert SettledAt(h, x);
      calc {
        Output(c, s, x);
        x * c.b2 + x * c.b1 + x * c.b0 + x * c.a2 + x * c.a1;
        x * DcGain(c);
        x;
      }
      var n := Next(c, s, xs[0]);
      assert SettledAt(n, x);
      ConstantInputPassesThrough(c, n, xs[1..], x);
      forall i | 0 <= i < |xs|
        ensures Outputs(c, s, xs)[i] == x
      {
        if i > 0 {
          assert Outputs(c, s, xs)[i] == Outputs(c, n, xs[1..])[i - 1];
        }
      }
    }
  }

  /** Each of the four Bessel sets has a DC gain within 10^-16 of 1 (the decimal
      constants are roundings of coefficients whose gain is exactly 1). */
  lemma BesselGainsNearUnity()
    ensures var eps := 0.0000000000000001;
      -eps < DcGain(BesselD5Coefficients) - 1.0 < eps &&
      -eps < DcGain(BesselD10Coefficients) - 1.0 < eps &&
      -eps < DcGain(BesselD20Coefficients) - 1.0 < eps &&
      -eps < DcGain(BesselD40Coefficients) - 1.0 < eps
  {
  }

  /** A second-order IIR section; the coefficients are public fields set at creation. */
  class IirOrder2Filter {
    var x1: real
    var x2: real
    var y1: real
    var y2: real
    var first: bool
    var a1: real
    var a2: real
    var b0: real
    var b1: real
    var b2: real

    function State(): IirState
      reads this
    {
      IirState(x1, x2, y1, y2, first)
    }

    function Coeffs(): Coefficients
      reads this
    {
      Coefficients(a1, a2, b0, b1, b2)
    }

    /** An object initialiser `new IirOrder2Filter { A1 = .., .. }`: given coefficients, untouched history. */
    constructor (c: Coefficients)
      ensures Coeffs() == c && State() == Unstepped
    {
      x1, x2, y1, y2, first := 0.0, 0.0, 0.0, 0.0, true;
      a1, a2, b0, b1, b2 := c.a1, c.a2, c.b0, c.b1, c.b2;
    }

    /** A fresh section with the same coefficients and an unstepped history. */
    method New() returns (f: IirOrder2Filter)
      ensures fresh(f)
      ensures f.Coeffs() == Coeffs() && f.State() == Unstepped
    {
      f := new IirOrder2Filter(Coefficients(a1, a2, b0, b1, b2));
    }

    /** Consumes one sample: seeds the history on the first one, applies the recurrence,
        shifts the history. The coefficients are not touched. */
    method Step(x: real) returns (result: real)
      modifies this`x1, this`x2, this`y1, this`y2, this`first
      ensures result == Output(old(Coeffs()), old(State()), x)
      ensures State() == Next(old(Coeffs()), old(State()), x)
      ensures Coeffs() == old(Coeffs())
    {
      if first {
        x1, x2 := x, x;
        y1, y2 := x, x;
        first := false;
      }
      result := x2 * b2 + x1 * b1 + x * b0 + y2 * a2 + y1 * a1;
      x2 := x1;
      x1 := x;
      y2 := y1;
      y1 := result;
    }
  }

  /** Stepping a copy made by `New` leaves the original's history alone, and the copy
      behaves like a filter that has seen nothing. */
  method StepCopy(f: IirOrder2Filter, x: real) returns (g: IirOrder2Filter, y: real)
    ensures fresh(g)
    ensures f.State() == old(f.State()) && f.Coeffs() == old(f.Coeffs())
    ensures g.Coeffs() == f.Coeffs()
    ensures y == x * DcGain(f.Coeffs())
    ensures g.State() == IirState(x, x, y, x, false)
  {
    g := f.New();
    y := g.Step(x);
    FirstOutputIsGainTimesInput(f.Coeffs(), Unstepped, x);
  }

  /** The `IFilter` interface as a tagged variant: the identity filter, or an IIR section. */
  datatype Filter = NullFilter | Iir(iir: IirOrder2Filter) {

    ghost function Repr(): set<object> {
      if Iir? then {iir} else {}
    }

    /** A fresh, unstepped filter of the same kind and coefficients. */
    method New() returns (g: Filter)
      ensures NullFilter? ==> g == NullFilter
      ensures Iir? ==> g.Iir? && fresh(g.iir) && g.iir.Coeffs() == iir.Coeffs() && g.iir.State() == Unstepped
    {
      if NullFilter? {
        g := NullFilter;
      } else {
        var f := iir.New();
        g := Iir(f);
      }
    }

    /** The identity filter returns its input; an IIR section steps its recurrence. */
    method Step(x: real) returns (y: real)
      modifies Repr()
      ensures NullFilter? ==> y == x
      ensures Iir? ==> y == Output(old(iir.Coeffs()), old(iir.State()), x)
      ensures Iir? ==> iir.State() == Next(old(iir.Coeffs()), old(iir.State()), x) && iir.Coeffs() == old(iir.Coeffs())
    {
      if NullFilter? {
        y := x;
      } else {
        y := iir.Step(x);
      }
    }
  }

  /** `Filters.None`: the identity filter. */
  method None() returns (f: Filter)
    ensures f == NullFilter
  {
    f := NullFilter;
  }

  /** `Filters.BesselD5`: a new section with the five-sample-delay coefficients. */
  method BesselD5() returns (f: Filter)
    ensures f.Iir? && fresh(f.iir) && f.iir.Coeffs() == BesselD5Coefficients && f.iir.State() == Unstepped
  {
    var s := new IirOrder2Filter(BesselD5Coefficients);
    f := Iir(s);
  }

  /** `Filters.BesselD10`: a new section with the ten-sample-delay coefficients. */
  method BesselD10() returns (f: Filter)
    ensures f.Iir? && fresh(f.iir) && f.iir.Coeffs() == BesselD10Coefficients && f.iir.State() == Unstepped
  {
    var s := new IirOrder2Filter(BesselD10Coefficients);
    f := Iir(s);
  }

  /** `Filters.BesselD20`: a new section with the twenty-sample-delay coefficients. */
  method BesselD20() returns (f: Filter)
    ensures f.Iir? && fresh(f.iir) && f.iir.Coeffs() == BesselD20Coefficients && f.iir.State() == Unstepped
  {
    var s := new IirOrder2Filter(BesselD20Coefficients);
    f := Iir(s);
  }

  /** `Filters.BesselD40`: a new section with the forty-sample-delay coefficients. */
  method BesselD40() returns (f: Filter)
    ensures f.Iir? && fresh(f.iir) && f.iir.Coeffs() == BesselD40Coefficients && f.iir.State() == Unstepped
  {
    var s := new IirOrder2Filter(BesselD40Coefficients);
    f := Iir(s);
  }
}
