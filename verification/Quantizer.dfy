// Venue-valid sizes and prices. A number is held in units of 10^-scale, for any scale that holds the
// input and every decimal the venue allows: no valid number needs a finer one.

module Quantizer {
  import opened Arith
  import opened Domain

  // `decimals` is the decimals cap on a price, the venue's maximum less the size's own.
  datatype Spec = Spec(szDecimals: nat, decimals: int, maxSigFigs: Option<nat>)

  function Pow10(n: nat): (p: nat)
    ensures p > 0
  {
    if n == 0 then 1 else 10 * Pow10(n - 1)
  }

  // The digits of a positive number's coefficient.
  function NumDigits(p: nat): (n: nat)
    ensures p > 0 ==> n > 0
  {
    if p == 0 then 0 else 1 + NumDigits(p / 10)
  }

  // The exponent of the most significant digit.
  function Adjusted(p: nat, scale: nat): int {
    NumDigits(p) - 1 - scale
  }

  function AllowedDecimals(p: nat, scale: nat, spec: Spec): nat {
    var decimals :=
      if spec.maxSigFigs.Some? && p != 0 && spec.maxSigFigs.value - 1 - Adjusted(p, scale) < spec.decimals
      then spec.maxSigFigs.value - 1 - Adjusted(p, scale) else spec.decimals;
    if decimals < 0 then 0 else decimals
  }

  function RoundDown(p: nat, unit: nat): nat
    requires unit > 0
  {
    p / unit * unit
  }

  function RoundUp(p: nat, unit: nat): nat
    requires unit > 0
  {
    if p % unit == 0 then p else p / unit * unit + unit
  }

  // Toward the passive side: a buy rounds down and a sell rounds up.
  function QuantizePrice(p: nat, side: Side, scale: nat, spec: Spec): nat
    requires spec.decimals <= scale
  {
    var unit := Pow10(scale - AllowedDecimals(p, scale, spec));
    if side.Buy? then RoundDown(p, unit) else RoundUp(p, unit)
  }

  // Valid at `d` decimals: that many decimals write it, in no more than the significant figures.
  predicate ValidAt(v: nat, d: nat, scale: nat, spec: Spec)
    requires d <= scale
  {
    && v % Pow10(scale - d) == 0
    && (spec.maxSigFigs.Some? ==> v / Pow10(scale - d) < Pow10(spec.maxSigFigs.value))
  }

  // The venue's rule: within both caps, or an integer.
  ghost predicate Valid(v: nat, scale: nat, spec: Spec)
    requires spec.decimals <= scale
  {
    v % Pow10(scale) == 0 || exists d :: 0 <= d <= spec.decimals && ValidAt(v, d, scale, spec)
  }

  // ----- Powers of ten -----

  lemma {:induction false} PowAdds(a: nat, b: nat)
    ensures Pow10(a + b) == Pow10(a) * Pow10(b)
  {
    if a > 0 {
      PowAdds(a - 1, b);
      assert Pow10(a + b) == 10 * Pow10(a - 1 + b);
      assert 10 * (Pow10(a - 1) * Pow10(b)) == (10 * Pow10(a - 1)) * Pow10(b);
    }
  }

  lemma {:induction false} PowMono(a: nat, b: nat)
    requires a <= b
    ensures Pow10(a) <= Pow10(b)
  {
    if a < b {
      PowMono(a, b - 1);
    }
  }

  lemma {:induction false} DigitsBound(p: nat)
    requires p > 0
    ensures Pow10(NumDigits(p) - 1) <= p < Pow10(NumDigits(p))
  {
    if p >= 10 {
      DigitsBound(p / 10);
      assert Pow10(NumDigits(p)) == 10 * Pow10(NumDigits(p / 10));
      assert Pow10(NumDigits(p) - 1) == 10 * Pow10(NumDigits(p / 10) - 1);
      DivMod(p, 10);
    } else {
      assert NumDigits(p) == 1 + NumDigits(0);
      assert Pow10(1) == 10 * Pow10(0);
    }
  }

  // A multiple of the larger power is one of the smaller.
  lemma MultipleOf(v: nat, fine: nat, coarse: nat)
    requires fine <= coarse && v % Pow10(coarse) == 0
    ensures v % Pow10(fine) == 0
  {
    PowAdds(coarse - fine, fine);
    var q := v / Pow10(coarse);
    DivMod(v, Pow10(coarse));
    assert v == q * (Pow10(coarse - fine) * Pow10(fine)) == (q * Pow10(coarse - fine)) * Pow10(fine);
    DivExact(q * Pow10(coarse - fine), Pow10(fine));
  }

  lemma RoundsRead(p: nat, unit: nat)
    requires unit > 0
    ensures RoundDown(p, unit) % unit == 0 && RoundDown(p, unit) <= p
    ensures RoundUp(p, unit) % unit == 0 && RoundUp(p, unit) >= p
  {
    DivMod(p, unit);
    DivExact(p / unit, unit);
    MulDist(p / unit, 1, unit);
    DivExact(p / unit + 1, unit);
  }

  // Rounding is extremal on its own grid.
  lemma RoundsExtremal(p: nat, v: nat, unit: nat)
    requires unit > 0 && v % unit == 0
    ensures v <= p ==> v <= RoundDown(p, unit)
    ensures v >= p ==> v >= RoundUp(p, unit)
  {
    DivMod(p, unit);
    DivMod(v, unit);
    if v <= p {
      DivMono(v, p, unit);
      MulMono(v / unit, p / unit, unit);
    }
    if v >= p && p % unit != 0 {
      DivMono(p, v, unit);
      if v / unit == p / unit {
        assert false;
      }
      MulStrict(p / unit, v / unit, unit);
    }
  }

  // A number under `10^(h + s)` that is a multiple of `10^h` has at most `s` figures there, and back.
  lemma FiguresBound(v: nat, h: nat, s: nat)
    requires v % Pow10(h) == 0
    ensures v / Pow10(h) < Pow10(s) <==> v < Pow10(h + s)
  {
    PowAdds(s, h);
    var q, u := v / Pow10(h), Pow10(h);
    DivMod(v, u);
    if q < Pow10(s) {
      MulStrict(q, Pow10(s), u);
    } else {
      MulMono(Pow10(s), q, u);
    }
  }

  // ----- The quantizer -----

  // The exponent of the rounding unit.
  function Grid(p: nat, scale: nat, spec: Spec): nat
    requires spec.decimals <= scale
  {
    scale - AllowedDecimals(p, scale, spec)
  }

  lemma QuantizedIsValid(p: nat, side: Side, scale: nat, spec: Spec)
    requires spec.decimals <= scale && (spec.maxSigFigs.Some? ==> spec.maxSigFigs.value >= 1)
    ensures Valid(QuantizePrice(p, side, scale, spec), scale, spec)
  {
    hide RoundDown, RoundUp, Pow10, NumDigits;
    var g, d := Grid(p, scale, spec), AllowedDecimals(p, scale, spec);
    var q := QuantizePrice(p, side, scale, spec);
    RoundsRead(p, Pow10(g));
    if d > 0 {
      assert g == scale - d && d <= spec.decimals;
      if spec.maxSigFigs.Some? && p != 0 {
        var s := spec.maxSigFigs.value;
        DigitsBound(p);
        assert NumDigits(p) <= g + s;
        PowMono(NumDigits(p), g + s);
        FiguresBound(q, g, s);
        PowAdds(s, g);
        DivExact(Pow10(s), Pow10(g));
        RoundsExtremal(p, Pow10(g + s), Pow10(g));
        if q == Pow10(g + s) {
          TopIsValid(g, s, scale, spec);
        } else {
          assert ValidAt(q, d, scale, spec);
        }
      } else {
        ZeroStays(side, Pow10(g));
        if p == 0 {
          DivExact(0, Pow10(g));
        }
        assert ValidAt(q, d, scale, spec);
      }
    }
  }

  lemma ZeroStays(side: Side, unit: nat)
    requires unit > 0
    ensures RoundDown(0, unit) == 0 && RoundUp(0, unit) == 0
  {
    DivExact(0, unit);
  }

  // Rounding up across a power of ten: one decimal fewer writes it.
  lemma TopIsValid(g: nat, s: nat, scale: nat, spec: Spec)
    requires g < scale && scale - g <= spec.decimals <= scale && s >= 1 && spec.maxSigFigs == Some(s)
    ensures Valid(Pow10(g + s), scale, spec)
  {
    PowAdds(s - 1, g + 1);
    DivExact(Pow10(s - 1), Pow10(g + 1));
    assert Pow10(s) == 10 * Pow10(s - 1);
    assert ValidAt(Pow10(g + s), scale - g - 1, scale, spec);
  }

  // A valid number off the rounding grid lies below the power of ten under the price, and that power
  // is on the grid.
  lemma OffGrid(p: nat, v: nat, d: nat, scale: nat, spec: Spec)
    requires spec.decimals <= scale && 0 <= d <= spec.decimals && (spec.maxSigFigs.Some? ==> spec.maxSigFigs.value >= 1)
    requires p > 0 && ValidAt(v, d, scale, spec) && v % Pow10(Grid(p, scale, spec)) != 0
    ensures v < Pow10(NumDigits(p) - 1) <= p && Pow10(NumDigits(p) - 1) % Pow10(Grid(p, scale, spec)) == 0
  {
    hide Pow10, NumDigits;
    var g, h, e := Grid(p, scale, spec), scale - d, NumDigits(p);
    if g <= h {
      MultipleOf(v, g, h);
    }
    assert h < g;
    var s := spec.maxSigFigs.value;
    assert g <= e - s;
    FiguresBound(v, h, s);
    PowMono(h + s, e - 1);
    DigitsBound(p);
    PowAdds(e - 1 - g, g);
    DivExact(Pow10(e - 1 - g), Pow10(g));
  }

  /** The quantizer's law: a valid price, never more aggressive than asked, and the nearest one: the
      greatest valid price at or below a buy's, the least at or above a sell's. */
  lemma QuantizesToBest(p: nat, side: Side, scale: nat, spec: Spec)
    requires p > 0 && spec.decimals <= scale && (spec.maxSigFigs.Some? ==> spec.maxSigFigs.value >= 1)
    ensures var q := QuantizePrice(p, side, scale, spec);
      && Valid(q, scale, spec)
      && (if side.Buy? then q <= p else q >= p)
      && forall v: nat :: Valid(v, scale, spec) ==> if side.Buy? then v <= p ==> v <= q else v >= p ==> v >= q
  {
    hide RoundDown, RoundUp, Pow10;
    var q, g := QuantizePrice(p, side, scale, spec), Grid(p, scale, spec);
    QuantizedIsValid(p, side, scale, spec);
    RoundsRead(p, Pow10(g));
    forall v: nat | Valid(v, scale, spec) ensures if side.Buy? then v <= p ==> v <= q else v >= p ==> v >= q {
      if v % Pow10(scale) == 0 {
        MultipleOf(v, g, scale);
      }
      if v % Pow10(g) == 0 {
        RoundsExtremal(p, v, Pow10(g));
      } else {
        var d :| 0 <= d <= spec.decimals && ValidAt(v, d, scale, spec);
        OffGrid(p, v, d, scale, spec);
        RoundsExtremal(p, Pow10(NumDigits(p) - 1), Pow10(g));
      }
    }
  }

  /** Idempotent by value, also where rounding up crossed a power of ten. */
  lemma QuantizeTwice(p: nat, side: Side, scale: nat, spec: Spec)
    requires p > 0 && spec.decimals <= scale && (spec.maxSigFigs.Some? ==> spec.maxSigFigs.value >= 1)
    ensures var q := QuantizePrice(p, side, scale, spec); QuantizePrice(q, side, scale, spec) == q
  {
    hide Valid, RoundDown, RoundUp;
    var q := QuantizePrice(p, side, scale, spec);
    QuantizesToBest(p, side, scale, spec);
    if q > 0 {
      QuantizesToBest(q, side, scale, spec);
    } else {
      ZeroStays(side, Pow10(Grid(0, scale, spec)));
    }
  }

  // ----- Sizes -----

  // Down toward zero, never nearest.
  function QuantizeSize(size: int, scale: nat, spec: Spec): int
    requires spec.szDecimals <= scale
  {
    var unit := Pow10(scale - spec.szDecimals);
    if size >= 0 then RoundDown(size, unit) else -(RoundDown(-size, unit) as int)
  }

  /** Never more than intended, and as much of it as the lot allows. */
  lemma SizeIsLargest(size: int, scale: nat, spec: Spec)
    requires spec.szDecimals <= scale
    ensures var q, unit := QuantizeSize(size, scale, spec), Pow10(scale - spec.szDecimals);
      && Abs(q) % unit == 0 && Abs(q) <= Abs(size) && (q == 0 || (q > 0) == (size > 0))
      && forall v: nat :: v % unit == 0 && v <= Abs(size) ==> v <= Abs(q)
  {
    hide RoundDown, Pow10;
    var unit := Pow10(scale - spec.szDecimals);
    RoundsRead(Abs(size), unit);
    forall v: nat | v % unit == 0 && v <= Abs(size) ensures v <= RoundDown(Abs(size), unit) {
      RoundsExtremal(Abs(size), v, unit);
    }
  }
}
