/** The packed fee state: a timestamp word, then price, window and last consumption per dimension. */
module FeeManager {
  import opened Bytes
  import opened Units
  import opened Window
  import opened FeePrice
  import opened FeeHistory

  const DIMENSION_WORDS := 12
  const STATE_WORDS := 1 + FEE_DIMENSIONS * DIMENSION_WORDS
  const MILLISECONDS_PER_SECOND := 1000

  type StateWords = w: seq<uint64> | |w| == STATE_WORDS witness seq(61, i => 0)

  datatype Rules = Rules(target: Dimensions, denom: Dimensions, min: Dimensions) {
    predicate Valid() {
      forall d | 0 <= d < FEE_DIMENSIONS :: target[d] > 0 && denom[d] > 0
    }
  }

  function PriceOf(w: StateWords, d: nat): uint64
    requires d < FEE_DIMENSIONS
  {
    w[1 + DIMENSION_WORDS * d]
  }

  function WindowOf(w: StateWords, d: nat): (r: seq<uint64>)
    requires d < FEE_DIMENSIONS
    ensures |r| == WINDOW_SIZE
  {
    w[2 + DIMENSION_WORDS * d..12 + DIMENSION_WORDS * d]
  }

  function LastOf(w: StateWords, d: nat): uint64
    requires d < FEE_DIMENSIONS
  {
    w[12 + DIMENSION_WORDS * d]
  }

  function Consumed(w: StateWords): (r: Dimensions) {
    seq(FEE_DIMENSIONS, d requires 0 <= d < FEE_DIMENSIONS => LastOf(w, d))
  }

  function Prices(w: StateWords): (r: Dimensions) {
    seq(FEE_DIMENSIONS, d requires 0 <= d < FEE_DIMENSIONS => PriceOf(w, d))
  }

  /** Seconds, rounded toward zero, as the word that stores them. */
  function Seconds(time: int): (r: uint64) {
    (if time >= 0 then time / MILLISECONDS_PER_SECOND else -(-time / MILLISECONDS_PER_SECOND)) % MODULUS
  }

  /** Time passed since the state was computed, modulo the word size. */
  function Since(w: StateWords, time: int): (r: uint64) {
    (Seconds(time) - w[0]) % MODULUS
  }

  /** One dimension of the next state, when `since` seconds have passed. */
  ghost predicate NextDimension(w: StateWords, n: StateWords, d: nat, rules: Rules, since: uint64)
    requires d < FEE_DIMENSIONS && rules.Valid()
  {
    && WindowOf(n, d) == NextWindow(WindowOf(w, d), LastOf(w, d), since)
    && PriceOf(n, d)
       == NextPrice(PriceOf(w, d), Saturated(Total(WindowOf(n, d))),
                    rules.target[d], rules.denom[d], rules.min[d], since)
    && LastOf(n, d) == 0
  }

  ghost predicate Next(w: StateWords, n: StateWords, time: int, rules: Rules)
    requires rules.Valid()
  {
    n[0] == Seconds(time) && forall d | 0 <= d < FEE_DIMENSIONS :: NextDimension(w, n, d, rules, Since(w, time))
  }

  method ComputeNextPriceWindow(previous: WindowBytes, consumed: uint64, price: uint64, target: uint64,
                                denom: uint64, min: uint64, since: uint64)
    returns (next: uint64, w: WindowBytes)
    requires target > 0 && denom > 0
    ensures Words(w) == NextWindow(Words(previous), consumed, since)
    ensures next == NextPrice(price, Saturated(Total(Words(w))), target, denom, min, since)
  {
    hide NextPrice, Word, Roll;
    var rolled := Roll(previous, since);
    forall j | 0 <= j < WINDOW_SIZE
      ensures Words(rolled)[j] == if j + since < WINDOW_SIZE then Words(previous)[j + since] else 0
    {
      RollShifts(previous, since, j);
    }
    var a := new Byte[8 * WINDOW_SIZE](i requires 0 <= i < 8 * WINDOW_SIZE => rolled[i]);
    assert a[..] == rolled;
    if since < WINDOW_SIZE {
      Update(a, WINDOW_SIZE - 1 - since, consumed);
    }
    w := a[..];
    var total := Sum(w);
    next := NextPrice(price, total, target, denom, min, since);
  }

  /** Copies a window into a buffer, word-aligned. */
  method CopyWindow(a: array<Byte>, k: nat, w: WindowBytes)
    requires a.Length % 8 == 0 && 8 * k + 80 <= a.Length
    modifies a
    ensures Words(a[..]) == Words(old(a[..]))[..k] + Words(w) + Words(old(a[..]))[k + WINDOW_SIZE..]
  {
    CopiedWords(a[..], k, w);
    hide Words;
    Copy(a, 8 * k, w);
  }

  lemma CopiedWord(b: Bytes, k: nat, w: WindowBytes, j: nat)
    requires |b| % 8 == 0 && 8 * k + 80 <= |b| && j < |b| / 8
    ensures Word(b[..8 * k] + w + b[8 * k + 80..], j) == if k <= j < k + WINDOW_SIZE then Word(w, j - k) else Word(b, j)
  {
    hide BigEndian;
    var (x, z) := (b[..8 * k], b[8 * k + 80..]);
    var r := x + w + z;
    if j < k {
      LeftSlice(x, w + z, 8 * j, 8);
      assert r == x + (w + z);
      LeftSlice(x, b[8 * k..], 8 * j, 8);
      assert b == x + b[8 * k..];
    } else if j < k + WINDOW_SIZE {
      MiddleSlice(x, w, z, 8 * (j - k), 8);
    } else {
      RightSlice(x + w, z, 8 * (j - k - WINDOW_SIZE), 8);
      RightSlice(b[..8 * k + 80], z, 8 * (j - k - WINDOW_SIZE), 8);
      assert b == b[..8 * k + 80] + z;
    }
  }

  lemma CopiedWords(b: Bytes, k: nat, w: WindowBytes)
    requires |b| % 8 == 0 && 8 * k + 80 <= |b|
    ensures Words(b[..8 * k] + w + b[8 * k + 80..]) == Words(b)[..k] + Words(w) + Words(b)[k + WINDOW_SIZE..]
  {
    var r := b[..8 * k] + w + b[8 * k + 80..];
    forall j | 0 <= j < |b| / 8
      ensures Words(r)[j] == (Words(b)[..k] + Words(w) + Words(b)[k + WINDOW_SIZE..])[j]
    {
      CopiedWord(b, k, w, j);
    }
  }

  lemma ZeroWords(n: nat)
    ensures |Zeros(8 * n)| % 8 == 0 && Words(Zeros(8 * n)) == seq(n, i => 0)
  {
    forall k | 0 <= k < n
      ensures Word(Zeros(8 * n), k) == 0
    {
      ZeroWord(8);
      assert Zeros(8 * n)[8 * k..8 * k + 8] == Zeros(8);
    }
  }

  /** A state with the price and the window of one dimension overwritten. */
  function Written(n: StateWords, i: nat, price: uint64, window: seq<uint64>): (r: StateWords)
    requires i < FEE_DIMENSIONS && |window| == WINDOW_SIZE
  {
    var at := 2 + DIMENSION_WORDS * i;
    n[at - 1 := price][..at] + window + n[at - 1 := price][at + WINDOW_SIZE..]
  }

  lemma WrittenReads(n: StateWords, i: nat, price: uint64, window: seq<uint64>, d: nat)
    requires i < FEE_DIMENSIONS && |window| == WINDOW_SIZE && d < FEE_DIMENSIONS
    ensures var r := Written(n, i, price, window);
            && r[0] == n[0] && LastOf(r, d) == LastOf(n, d)
            && PriceOf(r, d) == (if d == i then price else PriceOf(n, d))
            && WindowOf(r, d) == if d == i then window else WindowOf(n, d)
  {
  }

  /** Writing one dimension of a fresh state leaves the others alone. */
  lemma DimensionWritten(w: StateWords, n: StateWords, i: nat, rules: Rules, since: uint64,
                         price: uint64, window: seq<uint64>)
    requires i < FEE_DIMENSIONS && rules.Valid() && |window| == WINDOW_SIZE
    requires forall d | 0 <= d < FEE_DIMENSIONS :: LastOf(n, d) == 0
    requires forall d | 0 <= d < i :: NextDimension(w, n, d, rules, since)
    requires window == NextWindow(WindowOf(w, i), LastOf(w, i), since)
    requires price
             == NextPrice(PriceOf(w, i), Saturated(Total(window)), rules.target[i], rules.denom[i], rules.min[i], since)
    ensures var r := Written(n, i, price, window);
            && r[0] == n[0]
            && (forall d | 0 <= d <= i :: NextDimension(w, r, d, rules, since))
            && (forall d | 0 <= d < FEE_DIMENSIONS :: LastOf(r, d) == 0)
  {
    hide Written, NextPrice, NextWindow, Total;
    var r := Written(n, i, price, window);
    forall d | 0 <= d < FEE_DIMENSIONS
      ensures LastOf(r, d) == 0 && (d <= i ==> NextDimension(w, r, d, rules, since))
    {
      WrittenReads(n, i, price, window, d);
      if d < i {
        assert NextDimension(w, n, d, rules, since);
      } else if d == i {
        assert WindowOf(r, d) == window && PriceOf(r, d) == price;
      }
    }
    WrittenReads(n, i, price, window, i);
  }

  lemma Computed(w: StateWords, n: StateWords, time: int, rules: Rules)
    requires rules.Valid() && n[0] == Seconds(time)
    requires forall d | 0 <= d < FEE_DIMENSIONS :: NextDimension(w, n, d, rules, Since(w, time))
    ensures Next(w, n, time, rules)
  {
  }

  method WriteDimension(m: Manager, i: nat, price: uint64, window: WindowBytes)
    requires m.Valid() && i < FEE_DIMENSIONS
    modifies m.raw
    ensures m.State() == Written(old(m.State()), i, price, Words(window))
  {
    m.SetUnitPrice(i, price);
    CopyWindow(m.raw, 2 + DIMENSION_WORDS * i, window);
  }

  /** A state with the units of the first `n` dimensions added to their last consumption. */
  function WithUnits(w: StateWords, units: Dimensions, limit: Dimensions, n: nat): (r: StateWords)
    requires n <= FEE_DIMENSIONS && Fits(Consumed(w), units, limit)
  {
    if n == 0 then w
    else WithUnits(w, units, limit, n - 1)[DIMENSION_WORDS * n := Consumed(w)[n - 1] + units[n - 1]]
  }

  lemma {:induction false} WithUnitsAt(w: StateWords, units: Dimensions, limit: Dimensions, n: nat, d: nat)
    requires n <= FEE_DIMENSIONS && Fits(Consumed(w), units, limit) && d < FEE_DIMENSIONS
    ensures var r := WithUnits(w, units, limit, n);
            && r[0] == w[0] && PriceOf(r, d) == PriceOf(w, d) && WindowOf(r, d) == WindowOf(w, d)
            && LastOf(r, d) == LastOf(w, d) + if d < n then units[d] else 0
  {
    hide PriceOf, WindowOf;
    if n > 0 {
      WithUnitsAt(w, units, limit, n - 1, d);
      SetLastReads(WithUnits(w, units, limit, n - 1), n, Consumed(w)[n - 1] + units[n - 1], d);
    }
  }

  lemma WithUnitsReads(w: StateWords, units: Dimensions, limit: Dimensions, n: nat)
    requires n <= FEE_DIMENSIONS && Fits(Consumed(w), units, limit)
    ensures var r := WithUnits(w, units, limit, n);
            forall d | 0 <= d < FEE_DIMENSIONS ::
              && PriceOf(r, d) == PriceOf(w, d) && WindowOf(r, d) == WindowOf(w, d)
              && LastOf(r, d) == LastOf(w, d) + if d < n then units[d] else 0
  {
    hide PriceOf, WindowOf, LastOf, WithUnits;
    forall d | 0 <= d < FEE_DIMENSIONS
      ensures var r := WithUnits(w, units, limit, n);
              && PriceOf(r, d) == PriceOf(w, d) && WindowOf(r, d) == WindowOf(w, d)
              && LastOf(r, d) == LastOf(w, d) + if d < n then units[d] else 0
    {
      WithUnitsAt(w, units, limit, n, d);
    }
  }

  /** Overwriting the last consumption of dimension `n - 1` changes nothing else. */
  ghost predicate LastSet(w: StateWords, n: nat, v: uint64, d: nat)
    requires 0 < n <= FEE_DIMENSIONS && d < FEE_DIMENSIONS
  {
    var r: StateWords := w[DIMENSION_WORDS * n := v];
    && r[0] == w[0] && PriceOf(r, d) == PriceOf(w, d) && WindowOf(r, d) == WindowOf(w, d)
    && LastOf(r, d) == if d == n - 1 then v else LastOf(w, d)
  }

  lemma SetLastReads(w: StateWords, n: nat, v: uint64, d: nat)
    requires 0 < n <= FEE_DIMENSIONS && d < FEE_DIMENSIONS
    ensures LastSet(w, n, v, d)
  {
  }

  lemma WithUnitsLast(w: StateWords, units: Dimensions, limit: Dimensions, n: nat)
    requires n < FEE_DIMENSIONS && Fits(Consumed(w), units, limit)
    ensures LastOf(WithUnits(w, units, limit, n), n) == Consumed(w)[n]
  {
    WithUnitsAt(w, units, limit, n, n);
  }

  lemma UnitsAdded(w: StateWords, units: Dimensions, limit: Dimensions)
    requires Fits(Consumed(w), units, limit)
    ensures var r := WithUnits(w, units, limit, FEE_DIMENSIONS);
            && r[0] == w[0] && Consumed(r) == Plus(Consumed(w), units, limit)
            && forall d | 0 <= d < FEE_DIMENSIONS :: PriceOf(r, d) == PriceOf(w, d) && WindowOf(r, d) == WindowOf(w, d)
  {
    WithUnitsReads(w, units, limit, FEE_DIMENSIONS);
    WithUnitsAt(w, units, limit, FEE_DIMENSIONS, 0);
  }

  /** The price-weighted total over the first `n` dimensions. */
  function Cost(prices: Dimensions, units: Dimensions, n: nat): nat
    requires n <= FEE_DIMENSIONS
  {
    if n == 0 then 0
    else
      var (p: nat, u: nat) := (prices[n - 1], units[n - 1]);
      Cost(prices, units, n - 1) + p * u
  }

  lemma {:induction false} CostGrows(prices: Dimensions, units: Dimensions, n: nat, m: nat)
    requires n <= m <= FEE_DIMENSIONS
    ensures Cost(prices, units, n) <= Cost(prices, units, m)
    decreases m
  {
    if n < m {
      CostGrows(prices, units, n, m - 1);
    }
  }

  lemma WordAt(b: Bytes, k: nat)
    requires |b| % 8 == 0 && 8 * k + 8 <= |b|
    ensures Words(b)[k] == BigEndian(b[8 * k..8 * k + 8])
  {
  }

  /** The layout in bytes: the second, then for each dimension its price, its window and its consumption. */
  lemma Layout(b: Bytes, d: nat, j: nat)
    requires |b| == 488 && d < 5 && j < 10
    ensures Words(b)[0] == BigEndian(b[..8])
    ensures PriceOf(Words(b), d) == BigEndian(b[8 + 96 * d..16 + 96 * d])
    ensures WindowOf(Words(b), d)[j] == BigEndian(b[16 + 96 * d + 8 * j..24 + 96 * d + 8 * j])
    ensures LastOf(Words(b), d) == BigEndian(b[96 + 96 * d..104 + 96 * d])
  {
    WordAt(b, 0);
    WordAt(b, 1 + 12 * d);
    WordAt(b, 2 + 12 * d + j);
    WordAt(b, 12 + 12 * d);
  }

  lemma CostIsSum(prices: Dimensions, units: Dimensions)
    ensures Cost(prices, units, FEE_DIMENSIONS)
            == prices[0] as int * units[0] + prices[1] as int * units[1] + prices[2] as int * units[2]
               + prices[3] as int * units[3] + prices[4] as int * units[4]
  {
    assert Cost(prices, units, 1) == Cost(prices, units, 0) + prices[0] as int * units[0];
    assert Cost(prices, units, 3) == Cost(prices, units, 2) + prices[2] as int * units[2];
    assert Cost(prices, units, 4) == Cost(prices, units, 3) + prices[3] as int * units[3];
  }

  class Manager {
    const raw: array<Byte>

    ghost predicate Valid() {
      raw.Length == 8 * STATE_WORDS
    }

    ghost function State(): StateWords
      requires Valid()
      reads raw
    {
      Words(raw[..])
    }

    /** A state that was never written reads as all zeros. */
    constructor ()
      ensures Valid() && fresh(raw) && State() == seq(STATE_WORDS, i => 0)
    {
      raw := new Byte[8 * STATE_WORDS](i => 0);
      new;
      assert raw[..] == Zeros(8 * STATE_WORDS);
      ZeroWords(STATE_WORDS);
    }

    constructor FromBytes(bytes: Bytes)
      requires |bytes| == 8 * STATE_WORDS
      ensures Valid() && fresh(raw) && raw[..] == bytes
    {
      raw := new Byte[8 * STATE_WORDS](i requires 0 <= i < |bytes| => bytes[i]);
    }

    method UnitPrice(d: nat) returns (r: uint64)
      requires Valid() && d < FEE_DIMENSIONS
      ensures r == PriceOf(State(), d)
    {
      r := Word(raw[..], 1 + DIMENSION_WORDS * d);
    }

    method GetWindow(d: nat) returns (r: WindowBytes)
      requires Valid() && d < FEE_DIMENSIONS
      ensures Words(r) == WindowOf(State(), d)
    {
      var start := 8 * (2 + DIMENSION_WORDS * d);
      r := raw[start..start + 80];
      forall j | 0 <= j < WINDOW_SIZE
        ensures Word(r, j) == WindowOf(State(), d)[j]
      {
        MiddleSlice(raw[..start], r, raw[start + 80..], 8 * j, 8);
        assert raw[..] == raw[..start] + r + raw[start + 80..];
      }
    }

    method LastConsumed(d: nat) returns (r: uint64)
      requires Valid() && d < FEE_DIMENSIONS
      ensures r == LastOf(State(), d)
    {
      r := Word(raw[..], 12 + DIMENSION_WORDS * d);
    }

    method SetLastConsumed(d: nat, consumed: uint64)
      requires Valid() && d < FEE_DIMENSIONS
      modifies raw
      ensures State() == old(State())[12 + DIMENSION_WORDS * d := consumed]
    {
      PutWordSets(raw[..], 12 + DIMENSION_WORDS * d, consumed);
      PutUint64(raw, 12 + DIMENSION_WORDS * d, consumed);
    }

    method SetUnitPrice(d: nat, price: uint64)
      requires Valid() && d < FEE_DIMENSIONS
      modifies raw
      ensures State() == old(State())[1 + DIMENSION_WORDS * d := price]
    {
      PutWordSets(raw[..], 1 + DIMENSION_WORDS * d, price);
      PutUint64(raw, 1 + DIMENSION_WORDS * d, price);
    }

    method ComputeNext(time: int, rules: Rules) returns (m: Manager)
      requires Valid() && rules.Valid()
      ensures fresh(m) && fresh(m.raw) && m.Valid() && Next(State(), m.State(), time, rules)
    {
      hide Next, NextDimension, NextPrice, NextWindow;
      var since := (Seconds(time) - Word(raw[..], 0)) % MODULUS;
      m := new Manager();
      PutWordSets(m.raw[..], 0, Seconds(time));
      PutUint64(m.raw, 0, Seconds(time));
      for i := 0 to FEE_DIMENSIONS
        invariant m.Valid() && m.State()[0] == Seconds(time)
        invariant forall d | 0 <= d < i :: NextDimension(State(), m.State(), d, rules, since)
        invariant forall d | 0 <= d < FEE_DIMENSIONS :: LastOf(m.State(), d) == 0
      {
        var window := GetWindow(i);
        var last := LastConsumed(i);
        var price := UnitPrice(i);
        var nextPrice, nextWindow :=
          ComputeNextPriceWindow(window, last, price, rules.target[i], rules.denom[i], rules.min[i], since);
        DimensionWritten(State(), m.State(), i, rules, since, nextPrice, Words(nextWindow));
        WriteDimension(m, i, nextPrice, nextWindow);
      }
      Computed(State(), m.State(), time, rules);
    }

    /** The first dimension without room for the units, if any. */
    method FindFirstOver(units: Dimensions, limit: Dimensions) returns (dim: nat)
      requires Valid()
      ensures dim == FirstOver(Consumed(State()), units, limit, 0)
    {
      for i := 0 to FEE_DIMENSIONS
        invariant FirstOver(Consumed(State()), units, limit, 0) == FirstOver(Consumed(State()), units, limit, i)
      {
        var last := LastConsumed(i);
        if last + units[i] > MAX_UINT64 || last + units[i] > limit[i] {
          return i;
        }
      }
      return FEE_DIMENSIONS;
    }

    method AddUnits(units: Dimensions, limit: Dimensions)
      requires Valid() && Fits(Consumed(State()), units, limit)
      modifies raw
      ensures State() == WithUnits(old(State()), units, limit, FEE_DIMENSIONS)
    {
      for i := 0 to FEE_DIMENSIONS
        invariant State() == WithUnits(old(State()), units, limit, i)
      {
        WithUnitsLast(old(State()), units, limit, i);
        var last := LastConsumed(i);
        SetLastConsumed(i, last + units[i]);
      }
    }

    /** Adds units in every dimension, or changes nothing and names the first dimension that has no room. */
    method Consume(units: Dimensions, limit: Dimensions) returns (ok: bool, dim: nat)
      requires Valid()
      modifies raw
      ensures ok <==> Fits(old(Consumed(State())), units, limit)
      ensures ok ==> Consumed(State()) == Plus(old(Consumed(State())), units, limit) && dim == 0
      ensures ok ==> State()[0] == old(State()[0])
      ensures ok ==> forall d | 0 <= d < FEE_DIMENSIONS :: PriceOf(State(), d) == old(PriceOf(State(), d))
                                                        && WindowOf(State(), d) == old(WindowOf(State(), d))
      ensures !ok ==> raw[..] == old(raw[..]) && dim == FirstOver(Consumed(State()), units, limit, 0)
    {
      dim := FindFirstOver(units, limit);
      if dim < FEE_DIMENSIONS {
        return false, dim;
      }
      hide WithUnits, WindowOf, PriceOf;
      UnitsAdded(State(), units, limit);
      AddUnits(units, limit);
      return true, 0;
    }

    /** The price-weighted total of the units, exactly when a word can hold it. */
    method Fee(units: Dimensions) returns (fee: Maybe<uint64>)
      requires Valid()
      ensures var (p, u) := (Prices(State()), units);
              var total: int := p[0] as int * u[0] + p[1] as int * u[1] + p[2] as int * u[2]
                                + p[3] as int * u[3] + p[4] as int * u[4];
              fee == if total <= MAX_UINT64 then Some(total) else Nothing
    {
      CostIsSum(Prices(State()), units);
      var sum: uint64 := 0;
      for i := 0 to FEE_DIMENSIONS
        invariant sum == Cost(Prices(State()), units, i)
      {
        CostGrows(Prices(State()), units, i + 1, FEE_DIMENSIONS);
        var price := UnitPrice(i);
        if price * units[i] > MAX_UINT64 || price * units[i] + sum > MAX_UINT64 {
          return Nothing;
        }
        sum := price * units[i] + sum;
      }
      return Some(sum);
    }
  }
}

/** Over a run of blocks, the packed state holds the usage of the last ten seconds of the full history. */
module FeeRuns {
  import opened Bytes
  import opened Units
  import opened Window
  import opened FeePrice
  import opened FeeHistory
  import opened FeeManager

  datatype FeeBlock = FeeBlock(time: nat, rules: Rules, units: Dimensions)

  /** The state `r` is `n` once a block has consumed `units` on top of it. */
  ghost predicate Consumes(n: StateWords, r: StateWords, units: Dimensions) {
    && r[0] == n[0] && Consumed(r) == units
    && forall d | 0 <= d < FEE_DIMENSIONS :: WindowOf(r, d) == WindowOf(n, d) && PriceOf(r, d) == PriceOf(n, d)
  }

  /** A state in which no time has passed and nothing was used; the prices are whatever they were set to. */
  ghost predicate Unused(w: StateWords) {
    && w[0] == 0
    && forall d | 0 <= d < FEE_DIMENSIONS :: WindowOf(w, d) == seq(WINDOW_SIZE, i => 0) && LastOf(w, d) == 0
  }

  /** `states[i]` is left by the first `i` blocks, each of which computed `nexts[i]` on the way. */
  ghost predicate Run(blocks: seq<FeeBlock>, nexts: seq<StateWords>, states: seq<StateWords>) {
    && |nexts| == |blocks| && |states| == |blocks| + 1 && Unused(states[0])
    && (forall i | 0 <= i < |blocks| :: blocks[i].rules.Valid() && Step(blocks[i], states[i], nexts[i], states[i + 1]))
    && (forall i, j | 0 <= i < j < |blocks| :: blocks[i].time <= blocks[j].time)
    && (forall i | 0 <= i < |blocks| :: blocks[i].time <= MAX_UINT64)
  }

  ghost predicate Step(b: FeeBlock, w: StateWords, n: StateWords, r: StateWords)
    requires b.rules.Valid()
  {
    Next(w, n, b.time, b.rules) && Consumes(n, r, b.units)
  }

  /** One dimension of the state that a block leaves: the next price and window, and what the block used. */
  function NextWords(w: StateWords, d: nat, rules: Rules, since: uint64, used: uint64): (r: seq<uint64>)
    requires d < FEE_DIMENSIONS && rules.Valid()
    ensures |r| == DIMENSION_WORDS
  {
    var window := NextWindow(WindowOf(w, d), LastOf(w, d), since);
    var recent := Saturated(Total(window));
    var price := NextPrice(PriceOf(w, d), recent, rules.target[d], rules.denom[d], rules.min[d], since);
    [price] + window + [used]
  }

  /** The whole state that a block leaves, as a function of its parent's. */
  function FeeWords(w: StateWords, time: nat, rules: Rules, used: Dimensions): (r: StateWords)
    requires rules.Valid()
  {
    var since := Since(w, time);
    [Seconds(time)] + NextWords(w, 0, rules, since, used[0]) + NextWords(w, 1, rules, since, used[1])
    + NextWords(w, 2, rules, since, used[2]) + NextWords(w, 3, rules, since, used[3])
    + NextWords(w, 4, rules, since, used[4])
  }

  function FeeBytes(w: StateWords, time: nat, rules: Rules, used: Dimensions): (r: Bytes)
    requires rules.Valid()
    ensures |r| == 8 * STATE_WORDS
  {
    Packed(FeeWords(w, time, rules, used))
  }

  lemma StepDimension(b: FeeBlock, w: StateWords, n: StateWords, r: StateWords, d: nat)
    requires b.rules.Valid() && Step(b, w, n, r) && d < FEE_DIMENSIONS
    ensures r[1 + DIMENSION_WORDS * d..13 + DIMENSION_WORDS * d]
            == NextWords(w, d, b.rules, Since(w, b.time), b.units[d])
  {
    hide NextPrice, NextWindow, Total;
    assert NextDimension(w, n, d, b.rules, Since(w, b.time));
    assert Consumed(r)[d] == LastOf(r, d);
    assert r[1 + DIMENSION_WORDS * d..13 + DIMENSION_WORDS * d] == [PriceOf(r, d)] + WindowOf(r, d) + [LastOf(r, d)];
  }

  /** A step leaves exactly one state. */
  lemma StepIsFeeWords(b: FeeBlock, w: StateWords, n: StateWords, r: StateWords)
    requires b.rules.Valid() && Step(b, w, n, r)
    ensures r == FeeWords(w, b.time, b.rules, b.units)
  {
    hide NextWords;
    forall d | 0 <= d < FEE_DIMENSIONS
      ensures r[1 + DIMENSION_WORDS * d..13 + DIMENSION_WORDS * d]
              == NextWords(w, d, b.rules, Since(w, b.time), b.units[d])
    {
      StepDimension(b, w, n, r, d);
    }
    assert r[0] == Seconds(b.time);
    hide Next, Consumes;
    assert r == [r[0]] + r[1..13] + r[13..25] + r[25..37] + r[37..49] + r[49..61];
  }

  /** What the blocks consumed in one dimension, second by second. */
  function History(blocks: seq<FeeBlock>, d: nat): (h: seq<Usage>)
    requires d < FEE_DIMENSIONS
    ensures |h| == |blocks|
  {
    seq(|blocks|, i requires 0 <= i < |blocks| => Usage(blocks[i].time / MILLISECONDS_PER_SECOND, blocks[i].units[d]))
  }

  lemma HistoryOrdered(blocks: seq<FeeBlock>, nexts: seq<StateWords>, states: seq<StateWords>, d: nat, k: nat, now: nat)
    requires Run(blocks, nexts, states) && d < FEE_DIMENSIONS && k <= |blocks| && now <= MAX_UINT64
    requires forall i | 0 <= i < k :: blocks[i].time / MILLISECONDS_PER_SECOND <= now
    ensures Ordered(History(blocks, d)[..k], now)
  {
  }

  lemma NextReads(w: StateWords, n: StateWords, time: nat, rules: Rules, d: nat)
    requires rules.Valid() && Next(w, n, time, rules) && d < FEE_DIMENSIONS
    requires w[0] <= time / MILLISECONDS_PER_SECOND <= MAX_UINT64
    ensures n[0] == time / MILLISECONDS_PER_SECOND && Since(w, time) == time / MILLISECONDS_PER_SECOND - w[0]
    ensures LastOf(n, d) == 0
    ensures WindowOf(n, d) == NextWindow(WindowOf(w, d), LastOf(w, d), Since(w, time))
    ensures PriceOf(n, d) == NextPrice(PriceOf(w, d), Saturated(Total(WindowOf(n, d))),
                                       rules.target[d], rules.denom[d], rules.min[d], Since(w, time))
  {
    hide NextPrice, NextWindow, Total;
    assert NextDimension(w, n, d, rules, Since(w, time));
  }

  lemma StepReads(b: FeeBlock, w: StateWords, n: StateWords, r: StateWords, d: nat)
    requires b.rules.Valid() && Step(b, w, n, r) && d < FEE_DIMENSIONS
    ensures Next(w, n, b.time, b.rules)
    ensures r[0] == n[0] && WindowOf(r, d) == WindowOf(n, d) && LastOf(r, d) == b.units[d]
  {
    hide Next;
    assert Consumed(r)[d] == LastOf(r, d);
  }

  /** The first `n` prices are set and the others are zero, in a state that is unused otherwise. */
  ghost predicate Priced(w: StateWords, prices: Dimensions, n: nat)
    requires n <= FEE_DIMENSIONS
  {
    Unused(w) && forall d | 0 <= d < FEE_DIMENSIONS :: PriceOf(w, d) == if d < n then prices[d] else 0
  }

  lemma PricedNone(w: StateWords, prices: Dimensions)
    requires w == seq(STATE_WORDS, i => 0)
    ensures Priced(w, prices, 0)
  {
    forall d | 0 <= d < FEE_DIMENSIONS
      ensures WindowOf(w, d) == seq(WINDOW_SIZE, i => 0)
    {
    }
  }

  lemma PricedMore(w: StateWords, prices: Dimensions, n: nat)
    requires n < FEE_DIMENSIONS && Priced(w, prices, n)
    ensures Priced(w[1 + DIMENSION_WORDS * n := prices[n]], prices, n + 1)
  {
    var r: StateWords := w[1 + DIMENSION_WORDS * n := prices[n]];
    forall d | 0 <= d < FEE_DIMENSIONS
      ensures WindowOf(r, d) == WindowOf(w, d) && LastOf(r, d) == LastOf(w, d)
      ensures PriceOf(r, d) == if d == n then prices[n] else PriceOf(w, d)
    {
    }
  }

  /** The fee state of genesis: every price at its minimum and nothing used. */
  method GenesisFees(min: Dimensions) returns (m: Manager)
    ensures fresh(m) && fresh(m.raw) && m.Valid() && Unused(m.State()) && Prices(m.State()) == min
  {
    m := new Manager();
    PricedNone(m.State(), min);
    hide Priced;
    for i := 0 to FEE_DIMENSIONS
      invariant m.Valid() && Priced(m.State(), min, i)
    {
      PricedMore(m.State(), min, i);
      m.SetUnitPrice(i, min[i]);
    }
    AllPriced(m.State(), min);
  }

  lemma AllPriced(w: StateWords, prices: Dimensions)
    requires Priced(w, prices, FEE_DIMENSIONS)
    ensures Unused(w) && Prices(w) == prices
  {
  }

  lemma ConsumesMore(n: StateWords, w: StateWords, r: StateWords, used: Dimensions, units: Dimensions,
                     limit: Dimensions)
    requires Consumes(n, w, used) && Fits(used, units, limit)
    requires r[0] == w[0] && Consumed(r) == Plus(used, units, limit)
    requires forall d | 0 <= d < FEE_DIMENSIONS :: PriceOf(r, d) == PriceOf(w, d) && WindowOf(r, d) == WindowOf(w, d)
    ensures Consumes(n, r, Plus(used, units, limit))
  {
    hide PriceOf, WindowOf;
  }

  lemma ConsumesNone(w: StateWords, n: StateWords, time: int, rules: Rules)
    requires rules.Valid() && Next(w, n, time, rules)
    ensures Consumes(n, n, ZERO)
  {
    hide NextPrice, NextWindow, Total;
    forall d | 0 <= d < FEE_DIMENSIONS
      ensures LastOf(n, d) == 0
    {
      assert NextDimension(w, n, d, rules, Since(w, time));
    }
    assert Consumed(n) == ZERO;
  }

  /**
   * A block on the packed state: the next fee state, then the units of its transactions one by one. A
   * block whose units all fit makes one step of a run, consuming their sum.
   */
  method ProcessBlock(m: Manager, time: nat, rules: Rules, units: seq<Dimensions>, limit: Dimensions)
    returns (ok: bool, r: Manager, used: Dimensions, ghost n: StateWords)
    requires m.Valid() && rules.Valid()
    ensures fresh(r) && fresh(r.raw) && r.Valid()
    ensures ok <==> ConsumeAll(ZERO, units, limit).Some?
    ensures ok ==> ConsumeAll(ZERO, units, limit) == Some(used)
    ensures ok ==> Step(FeeBlock(time, rules, used), m.State(), n, r.State())
    ensures ok ==> r.raw[..] == FeeBytes(m.State(), time, rules, used)
  {
    hide Next, Consumes, Fits, Plus;
    used := ZERO;
    r := m.ComputeNext(time, rules);
    n := r.State();
    ConsumesNone(m.State(), n, time, rules);
    for i := 0 to |units|
      invariant r.Valid() && Consumes(n, r.State(), used) && ConsumeAll(ZERO, units[..i], limit) == Some(used)
    {
      assert units[..i + 1][..i] == units[..i];
      ConsumesUsed(n, r.State(), used);
      ghost var w := r.State();
      var fits, _ := r.Consume(units[i], limit);
      if !fits {
        ConsumeAllStops(ZERO, units, limit, i + 1);
        return false, r, used, n;
      }
      ConsumesMore(n, w, r.State(), used, units[i], limit);
      used := Plus(used, units[i], limit);
    }
    assert units[..|units|] == units;
    StepIsFeeWords(FeeBlock(time, rules, used), m.State(), n, r.State());
    PackedWords(r.raw[..]);
    ok := true;
  }

  lemma ConsumesUsed(n: StateWords, r: StateWords, units: Dimensions)
    requires Consumes(n, r, units)
    ensures Consumed(r) == units
  {
  }

  /** After any run, the window computed at `time` is the one the history prescribes. */
  lemma {:induction false} WindowsFollowHistory(blocks: seq<FeeBlock>, nexts: seq<StateWords>, states: seq<StateWords>,
                                                k: nat, time: nat, rules: Rules, n: StateWords, d: nat)
    requires Run(blocks, nexts, states) && d < FEE_DIMENSIONS && k <= |blocks| && rules.Valid()
    requires time <= MAX_UINT64 && forall i | 0 <= i < k :: blocks[i].time <= time
    requires Next(states[k], n, time, rules)
    ensures Ordered(History(blocks, d)[..k], time / MILLISECONDS_PER_SECOND)
    ensures n[0] == time / MILLISECONDS_PER_SECOND && states[k][0] <= n[0]
    ensures WindowOf(n, d) == WindowAt(History(blocks, d)[..k], time / MILLISECONDS_PER_SECOND)
    decreases k
  {
    hide Next, Step, NextWindow, Ordered;
    var now := time / MILLISECONDS_PER_SECOND;
    HistoryOrdered(blocks, nexts, states, d, k, now);
    if k > 0 {
      var b := blocks[k - 1];
      StepReads(b, states[k - 1], nexts[k - 1], states[k], d);
      WindowsFollowHistory(blocks, nexts, states, k - 1, b.time, b.rules, nexts[k - 1], d);
      assert History(blocks, d)[..k][..k - 1] == History(blocks, d)[..k - 1];
    }
    NextReads(states[k], n, time, rules, d);
  }

  /** The second of the last block, or 0 before the first. */
  function LastSecond(blocks: seq<FeeBlock>): (t: nat) {
    if blocks == [] then 0 else blocks[|blocks| - 1].time / 1000
  }

  lemma LastSecondIs(blocks: seq<FeeBlock>, nexts: seq<StateWords>, states: seq<StateWords>)
    requires Run(blocks, nexts, states)
    ensures states[|blocks|][0] == LastSecond(blocks)
  {
    if blocks != [] {
      var k := |blocks| - 1;
      var b := blocks[k];
      StepReads(b, states[k], nexts[k], states[k + 1], 0);
      WindowsFollowHistory(blocks, nexts, states, k, b.time, b.rules, nexts[k], 0);
    }
  }

  /**
   * Slot `j` holds the saturated usage of second `now - 9 + j`, and the price follows the law on the
   * saturated usage of the last ten seconds and the time since the last block.
   */
  lemma PriceFollowsHistory(blocks: seq<FeeBlock>, nexts: seq<StateWords>, states: seq<StateWords>,
                            time: nat, rules: Rules, n: StateWords, d: nat)
    requires Run(blocks, nexts, states) && d < FEE_DIMENSIONS && rules.Valid()
    requires time <= MAX_UINT64 && forall i | 0 <= i < |blocks| :: blocks[i].time <= time
    requires Next(states[|blocks|], n, time, rules)
    ensures var now := time / 1000;
            var history := History(blocks, d);
            && n[0] == now && LastSecond(blocks) <= now && LastOf(n, d) == 0
            && (forall j | 0 <= j < 10 :: WindowOf(n, d)[j] == Saturated(At(history, now - 9 + j)))
            && PriceOf(n, d)
               == NextPrice(PriceOf(states[|blocks|], d), Saturated(Recent(history, now + 1, 10)),
                            rules.target[d], rules.denom[d], rules.min[d], now - LastSecond(blocks))
  {
    hide Next, NextPrice, Step, At, Recent, Total, WindowAt;
    var now := time / MILLISECONDS_PER_SECOND;
    var history := History(blocks, d);
    var w := states[|blocks|];
    WindowsFollowHistory(blocks, nexts, states, |blocks|, time, rules, n, d);
    LastSecondIs(blocks, nexts, states);
    hide Run, Ordered;
    assert history[..|blocks|] == history;
    WindowMeans(history, now);
    NextReads(w, n, time, rules, d);
  }

  lemma WindowMeans(history: seq<Usage>, now: nat)
    requires Ordered(history, now) && now <= MAX_UINT64
    ensures forall j | 0 <= j < WINDOW_SIZE ::
              WindowAt(history, now)[j] == Saturated(At(history, now - (WINDOW_SIZE - 1) + j))
    ensures Saturated(Total(WindowAt(history, now))) == Saturated(Recent(history, now + 1, WINDOW_SIZE))
  {
    forall j | 0 <= j < WINDOW_SIZE
      ensures WindowAt(history, now)[j] == Saturated(At(history, now - (WINDOW_SIZE - 1) + j))
    {
      SlotsHoldSeconds(history, now, j);
    }
    WindowRefinesHistory(history, now);
  }
}
