/** The price law of one fee dimension. */
module FeePrice {
  import opened Bytes
  import opened Window

  const MODULUS := MAX_UINT64 + 1

  /** The share of a product that the price moves by, at least 1. */
  function Share(product: uint64, target: uint64, denom: uint64): (r: uint64)
    requires target > 0 && denom > 0
    ensures r >= 1
  {
    var r := product / target / denom;
    if r < 1 then 1 else r
  }

  /** The change of price for a distance `delta` from the target, with the unchecked product. */
  function BaseDelta(price: uint64, delta: uint64, target: uint64, denom: uint64): (r: uint64)
    requires target > 0 && denom > 0
    ensures r >= 1
  {
    Share(price * delta % MODULUS, target, denom)
  }

  function Raise(price: uint64, delta: uint64, target: uint64, denom: uint64): (r: uint64)
    requires target > 0 && denom > 0
  {
    Saturated(price + BaseDelta(price, delta, target, denom))
  }

  /** The drop is applied once per elapsed window, with an unchecked product. */
  function Drop(price: uint64, delta: uint64, target: uint64, denom: uint64, since: uint64): (r: uint64)
    requires target > 0 && denom > 0
  {
    var base := BaseDelta(price, delta, target, denom);
    if since > WINDOW_SIZE then base * (since / WINDOW_SIZE) % MODULUS else base
  }

  function NextPrice(price: uint64, total: uint64, target: uint64, denom: uint64, min: uint64,
                     since: uint64): (r: uint64)
    requires target > 0 && denom > 0
  {
    var next :=
      if total > target then Raise(price, total - target, target, denom)
      else if total < target then
        var drop := Drop(price, target - total, target, denom, since);
        if drop > price then 0 else price - drop
      else price;
    if next < min then min else next
  }

  /**
   * The control law, wrapped products included: never below the minimum; above the target strictly up
   * or saturated; at the target unchanged; below the target never up, and strictly down or at zero
   * when at most one window has elapsed.
   */
  lemma PriceLaw(price: uint64, total: uint64, target: uint64, denom: uint64, min: uint64, since: uint64)
    requires target > 0 && denom > 0
    ensures
      var next := NextPrice(price, total, target, denom, min, since);
      && next >= min
      && (total > target ==> next > price || next == MAX_UINT64)
      && (total == target ==> next == if price < min then min else price)
      && (total < target ==> next <= price || next == min)
      && (total < target && since <= WINDOW_SIZE ==> next < price || next == min || price == 0)
  {
  }

  /** None of the unchecked products exceeds a word. */
  predicate NoWrap(price: uint64, total: uint64, target: uint64, denom: uint64, since: uint64)
    requires target > 0 && denom > 0
  {
    var delta := if total > target then total - target else target - total;
    && price * delta <= MAX_UINT64
    && (total < target && since > WINDOW_SIZE ==>
          BaseDelta(price, delta, target, denom) * (since / WINDOW_SIZE) <= MAX_UINT64)
  }

  lemma DivMonotone(a: nat, b: nat, c: nat)
    requires a <= b && c > 0
    ensures a / c <= b / c
  {
    var (q, p) := (a / c, b / c);
    assert a == q * c + a % c && b == p * c + b % c;
    if p + 1 <= q {
      MulMonotone(p + 1, q, c);
    }
  }

  lemma MulMonotone(a: nat, b: nat, c: nat)
    requires a <= b
    ensures a * c <= b * c && c * a <= c * b
  {
  }

  lemma ShareMonotone(x: uint64, y: uint64, target: uint64, denom: uint64)
    requires target > 0 && denom > 0 && x <= y
    ensures Share(x, target, denom) <= Share(y, target, denom)
  {
    DivMonotone(x, y, target);
    DivMonotone(x / target, y / target, denom);
  }

  lemma Unwrapped(x: nat)
    requires x <= MAX_UINT64
    ensures x % MODULUS == x
  {
  }

  lemma DeltaMonotone(price: uint64, d: uint64, e: uint64, target: uint64, denom: uint64)
    requires target > 0 && denom > 0 && d <= e && price * e <= MAX_UINT64
    ensures price * d <= MAX_UINT64
    ensures BaseDelta(price, d, target, denom) <= BaseDelta(price, e, target, denom)
  {
    MulMonotone(d, e, price);
    Unwrapped(price * d);
    Unwrapped(price * e);
    ShareMonotone(price * d, price * e, target, denom);
  }

  lemma DropMonotone(price: uint64, d: uint64, e: uint64, target: uint64, denom: uint64, since: uint64)
    requires target > 0 && denom > 0 && d <= e && price * e <= MAX_UINT64
    requires since > WINDOW_SIZE ==> BaseDelta(price, e, target, denom) * (since / WINDOW_SIZE) <= MAX_UINT64
    ensures Drop(price, d, target, denom, since) <= Drop(price, e, target, denom, since)
  {
    hide BaseDelta;
    DeltaMonotone(price, d, e, target, denom);
    if since > WINDOW_SIZE {
      var (x, y, n) := (BaseDelta(price, d, target, denom), BaseDelta(price, e, target, denom), since / WINDOW_SIZE);
      MulMonotone(x, y, n);
      Unwrapped(x * n);
      Unwrapped(y * n);
    }
  }

  /**
   * More usage never means a lower price. Across the target this needs no condition, since the law
   * moves the price apart; on one side of it, the products at the usage farther from the target must
   * not wrap.
   */
  lemma PriceMonotone(price: uint64, low: uint64, high: uint64, target: uint64, denom: uint64, min: uint64,
                      since: uint64)
    requires target > 0 && denom > 0 && low <= high
    requires low > target ==> NoWrap(price, high, target, denom, since)
    requires high < target ==> NoWrap(price, low, target, denom, since)
    ensures NextPrice(price, low, target, denom, min, since) <= NextPrice(price, high, target, denom, min, since)
  {
    if low > target {
      DeltaMonotone(price, low - target, high - target, target, denom);
    } else if high < target {
      DropMonotone(price, target - high, target - low, target, denom, since);
    } else {
      hide NextPrice;
      PriceLaw(price, low, target, denom, min, since);
      PriceLaw(price, high, target, denom, min, since);
    }
  }

  /** `step` is the whole part of `x` over `target * denom`, but at least 1. */
  predicate IsStep(step: nat, x: nat, target: nat, denom: nat) {
    && step >= 1 && x < (step + 1) * (target * denom)
    && (step == 1 || step * (target * denom) <= x)
  }

  lemma Divides(x: nat, d: nat)
    requires d > 0
    ensures x / d * d <= x < (x / d + 1) * d
  {
    assert x == x / d * d + x % d;
  }

  lemma Associates(a: nat, b: nat, c: nat)
    ensures a * c * b == a * (b * c)
  {
  }

  lemma DivTwice(x: nat, target: nat, denom: nat)
    requires target > 0 && denom > 0
    ensures var q := x / target / denom; q * (target * denom) <= x < (q + 1) * (target * denom)
  {
    var p := x / target;
    var q := p / denom;
    Divides(x, target);
    Divides(p, denom);
    var (low, high) := (q * denom, (q + 1) * denom);
    MulMonotone(low, p, target);
    MulMonotone(p + 1, high, target);
    Associates(q, target, denom);
    Associates(q + 1, target, denom);
  }

  /** There is one step only. */
  lemma StepUnique(a: nat, b: nat, x: nat, target: nat, denom: nat)
    requires IsStep(a, x, target, denom) && IsStep(b, x, target, denom)
    ensures a == b
  {
    if a < b {
      MulMonotone(a + 1, b, target * denom);
    } else if b < a {
      MulMonotone(b + 1, a, target * denom);
    }
  }

  lemma ShareIsStep(x: uint64, target: uint64, denom: uint64)
    requires target > 0 && denom > 0
    ensures IsStep(Share(x, target, denom), x, target, denom)
  {
    DivTwice(x, target, denom);
    if x / target / denom < 1 {
      MulMonotone(1, 2, target * denom);
    }
  }

  /**
   * The size of a move, whatever wraps: the step is the price times the distance from the target, as a
   * word, over the target and the denominator, but at least 1. Above the target the price rises by the
   * step and saturates; below it falls by the step once per elapsed window, as a word, down to zero; then
   * the minimum applies.
   */
  lemma PriceMove(price: uint64, total: uint64, target: uint64, denom: uint64, min: uint64, since: uint64, step: nat)
    requires target > 0 && denom > 0
    requires IsStep(step, price * (if total > target then total - target else target - total) % 0x1_0000_0000_0000_0000,
                    target, denom)
    ensures
      var next := NextPrice(price, total, target, denom, min, since);
      var drop := if since <= 10 then step else step * (since / 10) % 0x1_0000_0000_0000_0000;
      var moved :=
        if total == target then price
        else if total > target then
          if price + step > MAX_UINT64 then MAX_UINT64 else price + step
        else if drop > price then 0 else price - drop;
      next == if moved < min then min else moved
  {
    var delta: uint64 := if total > target then total - target else target - total;
    var x: uint64 := price * delta % MODULUS;
    ShareIsStep(x, target, denom);
    StepUnique(step, Share(x, target, denom), x, target, denom);
    hide Share, IsStep;
    assert BaseDelta(price, delta, target, denom) == step;
  }

  /** A wrapped product turns a higher usage into a lower price. */
  lemma WrapBreaksMonotone()
    ensures
      var price := 0x8000_0000_0000_0000;
      && NextPrice(price, 2, 1, 1, 0, 1) == MAX_UINT64
      && NextPrice(price, 3, 1, 1, 0, 1) == price + 1
  {
  }
}

/** The sliding window of one dimension refines the full history of consumption. */
module FeeHistory {
  import opened Bytes
  import opened Window

  /** The window at `since` seconds after a block that consumed `last`. */
  function NextWindow(w: seq<uint64>, last: uint64, since: uint64): (r: seq<uint64>)
    requires |w| == WINDOW_SIZE
    ensures |r| == WINDOW_SIZE
  {
    var rolled := seq(WINDOW_SIZE, j requires 0 <= j < WINDOW_SIZE =>
                        if j + since < WINDOW_SIZE then w[j + since] else 0);
    if since < WINDOW_SIZE then
      rolled[WINDOW_SIZE - 1 - since := Saturated(rolled[WINDOW_SIZE - 1 - since] + last)]
    else rolled
  }

  /** A block: the second it was produced in, and the units it consumed. */
  datatype Usage = Usage(second: nat, units: uint64)

  /** What the blocks of one second consumed together. */
  function At(history: seq<Usage>, second: int): nat {
    if history == [] then 0
    else
      var u := history[|history| - 1];
      At(history[..|history| - 1], second) + if u.second == second then u.units else 0
  }

  predicate Ordered(history: seq<Usage>, now: nat) {
    && (forall i, j | 0 <= i < j < |history| :: history[i].second <= history[j].second)
    && (forall i | 0 <= i < |history| :: history[i].second <= now <= MAX_UINT64)
  }

  lemma OrderedInit(history: seq<Usage>, now: nat)
    requires Ordered(history, now) && history != []
    ensures var (init, last) := (history[..|history| - 1], history[|history| - 1]);
            last.second <= now && Ordered(init, now) && Ordered(init, last.second)
  {
  }

  /** The window computed for a block at `now`, on top of a history, from the empty window at second 0. */
  function WindowAt(history: seq<Usage>, now: nat): (w: seq<uint64>)
    requires Ordered(history, now) && now <= MAX_UINT64
    ensures |w| == WINDOW_SIZE
    decreases |history|
  {
    if history == [] then NextWindow(seq(WINDOW_SIZE, i => 0), 0, now)
    else
      OrderedInit(history, now);
      var u := history[|history| - 1];
      NextWindow(WindowAt(history[..|history| - 1], u.second), u.units, now - u.second)
  }

  lemma {:induction false} NoneLater(history: seq<Usage>, now: nat, second: int)
    requires Ordered(history, now) && second > now
    ensures At(history, second) == 0
  {
    if history != [] {
      OrderedInit(history, now);
      NoneLater(history[..|history| - 1], now, second);
    }
  }

  /** The last block of a history, on top of a slot of the window before it. */
  lemma SlotStep(history: seq<Usage>, now: nat, j: nat)
    requires Ordered(history, now) && history != [] && now <= MAX_UINT64 && j < WINDOW_SIZE
    requires
      var (before, u) := (history[..|history| - 1], history[|history| - 1]);
      && u.second <= now && Ordered(before, u.second)
      && (j + (now - u.second) < WINDOW_SIZE ==>
            WindowAt(before, u.second)[j + (now - u.second)] == Saturated(At(before, now - (WINDOW_SIZE - 1) + j)))
    ensures WindowAt(history, now)[j] == Saturated(At(history, now - (WINDOW_SIZE - 1) + j))
  {
    hide Ordered, NextWindow;
    var (before, u) := (history[..|history| - 1], history[|history| - 1]);
    var (since, second) := (now - u.second, now - (WINDOW_SIZE - 1) + j);
    var w := WindowAt(before, u.second);
    assert WindowAt(history, now) == NextWindow(w, u.units, since);
    assert At(history, second) == At(before, second) + if u.second == second then u.units else 0;
    NextSlot(w, u.units, since, j);
    if j + since >= WINDOW_SIZE {
      NoneLater(before, u.second, second);
    }
    hide WindowAt, At;
    SaturatedSum(At(before, second), u.units);
  }

  /** Slot `j` holds what was consumed in second `now - 9 + j`, saturated. */
  lemma {:induction false} SlotsHoldSeconds(history: seq<Usage>, now: nat, j: nat)
    requires Ordered(history, now) && now <= MAX_UINT64 && j < WINDOW_SIZE
    ensures WindowAt(history, now)[j] == Saturated(At(history, now - (WINDOW_SIZE - 1) + j))
    decreases |history|
  {
    if history == [] {
      NextSlot(seq(WINDOW_SIZE, i => 0), 0, now, j);
    } else {
      OrderedInit(history, now);
      hide Ordered, WindowAt, At;
      var (before, u) := (history[..|history| - 1], history[|history| - 1]);
      if j + (now - u.second) < WINDOW_SIZE {
        SlotsHoldSeconds(before, u.second, j + (now - u.second));
      }
      SlotStep(history, now, j);
    }
  }

  /** Slot by slot: shifted, zero-filled, and the last consumption added where its second now is. */
  lemma NextSlot(w: seq<uint64>, last: uint64, since: uint64, j: nat)
    requires |w| == WINDOW_SIZE && j < WINDOW_SIZE
    ensures NextWindow(w, last, since)[j]
            == if j + since >= WINDOW_SIZE then 0
               else if j + since == WINDOW_SIZE - 1 then Saturated(w[j + since] + last) else w[j + since]
  {
  }

  lemma SaturatedSum(n: nat, u: uint64)
    ensures Saturated(Saturated(n) + u) == Saturated(n + u)
  {
  }

  /** What was consumed in the `n` seconds that end before `end`. */
  function Recent(history: seq<Usage>, end: int, n: nat): nat
    decreases n
  {
    if n == 0 then 0 else Recent(history, end - 1, n - 1) + At(history, end - 1)
  }

  /** Adding up saturated words and saturating gives the saturated total of the ten seconds. */
  lemma {:induction false} SumIsRecent(history: seq<Usage>, now: nat, n: nat)
    requires Ordered(history, now) && now <= MAX_UINT64 && n <= WINDOW_SIZE
    ensures Saturated(Total(WindowAt(history, now)[..n])) == Saturated(Recent(history, now - (WINDOW_SIZE - 1) + n, n))
  {
    if n > 0 {
      var w := WindowAt(history, now);
      SumIsRecent(history, now, n - 1);
      SlotsHoldSeconds(history, now, n - 1);
      assert w[..n][..n - 1] == w[..n - 1];
    }
  }

  lemma WindowRefinesHistory(history: seq<Usage>, now: nat)
    requires Ordered(history, now) && now <= MAX_UINT64
    ensures Saturated(Total(WindowAt(history, now))) == Saturated(Recent(history, now + 1, WINDOW_SIZE))
  {
    SumIsRecent(history, now, WINDOW_SIZE);
    assert WindowAt(history, now)[..WINDOW_SIZE] == WindowAt(history, now);
  }
}
