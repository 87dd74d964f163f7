/** Fee dimensions and the all-or-nothing consumption of a block's units. */
module Units {
  import opened Bytes

  const FEE_DIMENSIONS := 5

  type Dimensions = d: seq<uint64> | |d| == FEE_DIMENSIONS witness [0, 0, 0, 0, 0]

  const ZERO: Dimensions := [0, 0, 0, 0, 0]

  datatype Result = Result(success: bool, error: Bytes, outputs: seq<Bytes>, units: Dimensions, fee: uint64)

  /** The first dimension, from `i` on, in which `units` more would overflow or exceed the limit; 5 if none. */
  function FirstOver(consumed: Dimensions, units: Dimensions, limit: Dimensions, i: nat): (d: nat)
    requires i <= FEE_DIMENSIONS
    ensures i <= d <= FEE_DIMENSIONS
    ensures d < FEE_DIMENSIONS ==> consumed[d] + units[d] > MAX_UINT64 || consumed[d] + units[d] > limit[d]
    ensures forall e | i <= e < d :: consumed[e] + units[e] <= MAX_UINT64 && consumed[e] + units[e] <= limit[e]
    decreases FEE_DIMENSIONS - i
  {
    if i == FEE_DIMENSIONS then i
    else if consumed[i] + units[i] > MAX_UINT64 || consumed[i] + units[i] > limit[i] then i
    else FirstOver(consumed, units, limit, i + 1)
  }

  predicate Fits(consumed: Dimensions, units: Dimensions, limit: Dimensions) {
    forall i | 0 <= i < FEE_DIMENSIONS :: consumed[i] + units[i] <= MAX_UINT64 && consumed[i] + units[i] <= limit[i]
  }

  function Plus(consumed: Dimensions, units: Dimensions, limit: Dimensions): (r: Dimensions)
    requires Fits(consumed, units, limit)
    ensures forall i | 0 <= i < FEE_DIMENSIONS :: r[i] == consumed[i] + units[i] <= limit[i]
  {
    seq(FEE_DIMENSIONS, i requires 0 <= i < FEE_DIMENSIONS => consumed[i] + units[i])
  }

  /** Consumes the given units in turn, all or nothing each time; a refusal ends it. */
  function ConsumeAll(consumed: Dimensions, units: seq<Dimensions>, max: Dimensions): (r: Maybe<Dimensions>) {
    if units == [] then Some(consumed)
    else
      match ConsumeAll(consumed, units[..|units| - 1], max)
      case Nothing => Nothing
      case Some(c) =>
        var u := units[|units| - 1];
        if Fits(c, u, max) then Some(Plus(c, u, max)) else Nothing
  }

  function TotalUnits(units: seq<Dimensions>, d: nat): (t: nat)
    requires d < FEE_DIMENSIONS
  {
    if units == [] then 0 else TotalUnits(units[..|units| - 1], d) + units[|units| - 1][d]
  }

  /** What a successful consumption adds up to. */
  lemma {:induction false} ConsumedTotal(consumed: Dimensions, units: seq<Dimensions>, max: Dimensions, d: nat)
    requires d < FEE_DIMENSIONS && ConsumeAll(consumed, units, max).Some?
    ensures ConsumeAll(consumed, units, max).value[d] == consumed[d] + TotalUnits(units, d)
    ensures units != [] ==> ConsumeAll(consumed, units, max).value[d] <= max[d]
  {
    if units != [] {
      ConsumedTotal(consumed, units[..|units| - 1], max, d);
    }
  }

  /** Units are consumed in turn exactly if their sum fits in every dimension. */
  lemma {:induction false} ConsumesExactlyIfSumFits(consumed: Dimensions, units: seq<Dimensions>, max: Dimensions)
    ensures ConsumeAll(consumed, units, max).Some?
            <==> units == [] || forall d: nat | d < FEE_DIMENSIONS :: SumFits(consumed, units, max, d)
  {
    if units != [] {
      var most := units[..|units| - 1];
      ConsumesExactlyIfSumFits(consumed, most, max);
      if ConsumeAll(consumed, most, max).Some? {
        forall d: nat | d < FEE_DIMENSIONS
          ensures ConsumeAll(consumed, most, max).value[d] == consumed[d] + TotalUnits(most, d)
        {
          ConsumedTotal(consumed, most, max, d);
        }
        SumFitsNow(consumed, units, max);
      } else {
        var d: nat :| d < FEE_DIMENSIONS && !SumFits(consumed, most, max, d);
        assert TotalUnits(units, d) >= TotalUnits(most, d);
        assert !SumFits(consumed, units, max, d);
      }
    }
  }

  predicate SumFits(consumed: Dimensions, units: seq<Dimensions>, max: Dimensions, d: nat)
    requires d < FEE_DIMENSIONS
  {
    consumed[d] as int + TotalUnits(units, d) <= max[d]
  }

  lemma SumFitsNow(consumed: Dimensions, units: seq<Dimensions>, max: Dimensions)
    requires units != [] && ConsumeAll(consumed, units[..|units| - 1], max).Some?
    requires forall d: nat | d < FEE_DIMENSIONS ::
               ConsumeAll(consumed, units[..|units| - 1], max).value[d]
               == consumed[d] as int + TotalUnits(units[..|units| - 1], d)
    ensures ConsumeAll(consumed, units, max).Some?
            <==> forall d: nat | d < FEE_DIMENSIONS :: SumFits(consumed, units, max, d)
  {
    var c := ConsumeAll(consumed, units[..|units| - 1], max).value;
    var u := units[|units| - 1];
    forall d: nat | d < FEE_DIMENSIONS
      ensures SumFits(consumed, units, max, d)
              <==> c[d] as int + u[d] <= MAX_UINT64 && c[d] as int + u[d] <= max[d]
    {
    }
  }

  lemma {:induction false} ConsumeAllAppends(consumed: Dimensions, a: seq<Dimensions>, b: seq<Dimensions>,
                                             max: Dimensions)
    requires ConsumeAll(consumed, a, max).Some?
    ensures ConsumeAll(consumed, a + b, max) == ConsumeAll(ConsumeAll(consumed, a, max).value, b, max)
    decreases |b|
  {
    if b == [] {
      assert a + b == a;
    } else {
      ConsumeAllAppends(consumed, a, b[..|b| - 1], max);
      assert (a + b)[..|a + b| - 1] == a + b[..|b| - 1];
    }
  }

  lemma {:induction false} ConsumeAllStops(consumed: Dimensions, units: seq<Dimensions>, max: Dimensions, n: nat)
    requires n <= |units| && ConsumeAll(consumed, units[..n], max).Nothing?
    ensures ConsumeAll(consumed, units, max).Nothing?
    decreases |units|
  {
    if n < |units| {
      assert units[..|units| - 1][..n] == units[..n];
      ConsumeAllStops(consumed, units[..|units| - 1], max, n);
    } else {
      assert units[..n] == units;
    }
  }
}
