/** Time step arithmetic of the time integrator: how many steps are planned for the time that remains
    until the next coarser level is met.  `s` stands for the square root of the machine epsilon. */
module StepSize {
  import opened Wrappers

  function MinReal(a: real, b: real): (r: real)
    ensures r <= a && r <= b && (r == a || r == b)
  {
    if a < b then a else b
  }

  /** The maximum time increment may grow by a factor, up to a bound. */
  function GrownDt(dtBound: real, dtMax: real, growth: real): (d: real)
    requires dtBound > 0.0 && dtMax > 0.0 && growth > 0.0
    ensures 0.0 < d <= dtBound && d <= dtMax * growth && (d == dtBound || d == dtMax * growth)
    ensures growth >= 1.0 ==> d >= MinReal(dtBound, dtMax)
  {
    MulStrict(0.0, growth, dtMax);
    if growth >= 1.0 then
      MulMonotone(1.0, growth, dtMax);
      MinReal(dtBound, dtMax * growth)
    else
      MinReal(dtBound, dtMax * growth)
  }

  /** Number of steps of size `dtMax` planned for `timeRemaining`; a rest below the tolerance is dropped. */
  function StepsToCover(timeRemaining: real, dtMax: real, s: real): int
    requires dtMax > 0.0
  {
    var n := (timeRemaining / dtMax).Floor;
    if timeRemaining - dtMax * n as real > s * timeRemaining then n + 1 else n
  }

  /** The number of regrid intervals is rounded up. */
  function RoundUp(n: int, interval: int): int
    requires interval > 0
  {
    (n / interval + if n % interval != 0 then 1 else 0) * interval
  }

  /** Length of the whole step sequence of a level above zero, of which `step` steps are done. */
  function PlannedSteps(step: int, remaining: int, refinable: bool, interval: int): int
    requires interval > 0
  {
    if refinable then RoundUp(Max(step + remaining, interval), interval) else step + remaining
  }

  lemma MulMonotone(a: real, b: real, c: real)
    requires a <= b && c >= 0.0
    ensures a * c <= b * c
  {
  }

  lemma MulStrict(a: real, b: real, c: real)
    requires a < b && c > 0.0
    ensures a * c < b * c
  {
  }

  lemma SameProduct(a: real, b: real, c: real)
    requires a == b
    ensures a * c == b * c
  {
  }

  lemma MulCancel(a: real, b: real, c: real)
    requires a * c <= b * c && c > 0.0
    ensures a <= b
  {
    if b < a {
      MulStrict(b, a, c);
    }
  }

  lemma ScaleBelow(t: real, d: real, q: real, f: real)
    requires d > 0.0 && t == d * q && q < f + 1.0
    ensures t < d * f + d
  {
    MulStrict(q, f + 1.0, d);
  }

  lemma ScaleAbove(t: real, d: real, q: real, f: real)
    requires d > 0.0 && t == d * q && f <= q
    ensures d * f <= t
  {
    MulMonotone(f, q, d);
  }

  lemma FloorOfQuotient(t: real, d: real)
    requires d > 0.0
    ensures d * (t / d).Floor as real <= t < d * (t / d).Floor as real + d
    ensures t >= 0.0 ==> (t / d).Floor >= 0
  {
    var q := t / d;
    ScaleBelow(t, d, q, q.Floor as real);
    ScaleAbove(t, d, q, q.Floor as real);
    assert t >= 0.0 ==> 0.0 <= q by { if t >= 0.0 { MulCancel(0.0, q, d); } }
  }

  /** Enough steps to cover the remaining time up to the tolerance, and not one more than needed. */
  lemma StepsToCoverBounds(t: real, d: real, s: real)
    requires t > 0.0 && d > 0.0 && 0.0 < s < 1.0
    ensures StepsToCover(t, d, s) >= 1
    ensures (1.0 - s) * t <= d * StepsToCover(t, d, s) as real
    ensures d * (StepsToCover(t, d, s) - 1) as real < t
  {
    FloorOfQuotient(t, d);
    var n := (t / d).Floor;
    if n == 0 {
      assert d * n as real == 0.0;
      assert s * t < t;
    }
    assert (n - 1) as real == n as real - 1.0;
    assert d * (n - 1) as real == d * n as real - d;
  }

  /** One more step would not fit into the remaining time, and if the last one does not fit either, then the rest that
      it is for is above the tolerance. */
  lemma StepsToCoverTight(t: real, d: real, s: real)
    requires t > 0.0 && d > 0.0 && 0.0 < s < 1.0
    ensures t < d * (StepsToCover(t, d, s) + 1) as real
    ensures d * StepsToCover(t, d, s) as real > t ==> t - d * (StepsToCover(t, d, s) - 1) as real > s * t
  {
    FloorOfQuotient(t, d);
    var n := (t / d).Floor;
    assert d * (n + 1) as real == d * n as real + d;
    assert d * (n + 2) as real == d * n as real + 2.0 * d;
  }

  /** Rounding up yields the least multiple of the interval that is not below `n`. */
  lemma RoundUpIsLeastMultiple(n: int, interval: int)
    requires interval > 0
    ensures RoundUp(n, interval) % interval == 0
    ensures n <= RoundUp(n, interval) < n + interval
    ensures forall m :: n <= m && m % interval == 0 ==> RoundUp(n, interval) <= m
  {
    var q := n / interval + if n % interval != 0 then 1 else 0;
    MultipleMod(q, interval);
    assert n == (n / interval) * interval + n % interval;
    assert q * interval == (n / interval) * interval + if n % interval != 0 then interval else 0;
    forall m | n <= m && m % interval == 0
      ensures q * interval <= m
    {
      LeastMultiple(n, m, interval, q);
    }
  }

  lemma MultipleMod(q: int, k: int)
    requires k > 0
    ensures (q * k) % k == 0
  {
    var r := (q * k) % k;
    var d := (q * k) / k;
    assert q * k == d * k + r;
    assert (q - d) * k == r;
    if q - d >= 1 { MulAtLeast(q - d, k); }
    if q - d <= -1 { MulAtLeast(d - q, k); }
  }

  lemma MulAtLeast(a: int, k: int)
    requires a >= 1 && k > 0
    ensures a * k >= k
  {
  }

  lemma LeastMultiple(n: int, m: int, k: int, q: int)
    requires k > 0 && n <= m && m % k == 0 && q * k < n + k
    ensures q * k <= m
  {
    var j := m / k;
    assert m == j * k;
    assert q * k - j * k == (q - j) * k;
    if q - j >= 1 {
      MulAtLeast(q - j, k);
    } else if q - j <= -1 {
      MulAtLeast(j - q, k);
    }
  }

  /** On a refinable level the sequence gets the least number of steps that fills one or more whole regrid intervals
      and is large enough; otherwise it gets just the steps that are needed. */
  lemma PlanIsLeast(step: int, remaining: int, refinable: bool, interval: int)
    requires interval > 0
    ensures !refinable ==> PlannedSteps(step, remaining, refinable, interval) == step + remaining
    ensures refinable ==>
      var planned := PlannedSteps(step, remaining, refinable, interval);
      && planned % interval == 0 && planned >= interval && planned >= step + remaining
      && forall m :: m % interval == 0 && m >= interval && m >= step + remaining ==> planned <= m
  {
    RoundUpIsLeastMultiple(Max(step + remaining, interval), interval);
  }

  /** At least one step is left after re-planning, so that a step sequence can only end by taking its
      last step; on a refinable level it then ends on a multiple of the regrid interval. */
  lemma PlanLeavesSteps(t: real, d: real, s: real, step: int, refinable: bool, interval: int)
    requires t > 0.0 && d > 0.0 && 0.0 < s < 1.0 && step >= 0 && interval > 0
    ensures PlannedSteps(step, StepsToCover(t, d, s), refinable, interval) > step
    ensures refinable ==> PlannedSteps(step, StepsToCover(t, d, s), refinable, interval) % interval == 0
  {
    StepsToCoverBounds(t, d, s);
    RoundUpIsLeastMultiple(Max(step + StepsToCover(t, d, s), interval), interval);
  }

  /** The error "no steps left to divide remaining time" is raised exactly when no time remains and the
      steps taken fill one or more whole regrid intervals. */
  lemma NoStepsLeftIff(t: real, d: real, s: real, step: int, interval: int)
    requires t >= 0.0 && d > 0.0 && 0.0 < s < 1.0 && step >= 0 && interval > 0
    ensures step >= PlannedSteps(step, StepsToCover(t, d, s), true, interval)
            <==> t == 0.0 && step >= interval && step % interval == 0
  {
    if t > 0.0 {
      PlanLeavesSteps(t, d, s, step, true, interval);
    } else {
      assert t / d == 0.0;
      assert StepsToCover(t, d, s) == 0;
      RoundUpIsLeastMultiple(Max(step, interval), interval);
    }
  }

  /** The new length of the step sequence of a level above zero, or nothing if no steps are left to divide
      the remaining time. */
  function Replan(t: real, d: real, s: real, step: int, refinable: bool, interval: int): (plan: Option<int>)
    requires t >= 0.0 && d > 0.0 && 0.0 < s < 1.0 && step >= 0 && interval > 0
    requires t > 0.0 || refinable
    ensures plan == None <==> t == 0.0 && step >= interval && step % interval == 0
    ensures plan.Some? ==> plan.value > step
  {
    var planned := PlannedSteps(step, StepsToCover(t, d, s), refinable, interval);
    if t > 0.0 then
      PlanLeavesSteps(t, d, s, step, refinable, interval);
      Some(planned)
    else
      NoStepsLeftIff(t, d, s, step, interval);
      if step >= planned then None else Some(planned)
  }

  lemma ReplanIsPlan(t: real, d: real, s: real, step: int, refinable: bool, interval: int)
    requires t > 0.0 && d > 0.0 && 0.0 < s < 1.0 && step >= 0 && interval > 0
    ensures Replan(t, d, s, step, refinable, interval) ==
            Some(PlannedSteps(step, StepsToCover(t, d, s), refinable, interval))
  {
  }

  /** The remaining time is divided evenly among the planned steps, and the step size exceeds the bound at
      most by the tolerance, also after rounding up to the regrid interval. */
  lemma StepSizeBound(t: real, d: real, s: real, step: int, refinable: bool, interval: int)
    requires t > 0.0 && d > 0.0 && 0.0 < s < 1.0 && step >= 0 && interval > 0
    ensures var left := PlannedSteps(step, StepsToCover(t, d, s), refinable, interval) - step;
            left >= 1 && left as real * (t / left as real) == t && 0.0 < t / left as real <= d / (1.0 - s)
  {
    hide StepsToCover, PlannedSteps;
    var n := StepsToCover(t, d, s);
    var left := PlannedSteps(step, n, refinable, interval) - step;
    PlanLeavesSteps(t, d, s, step, refinable, interval);
    StepsToCoverBounds(t, d, s);
    PlanCovers(n, step, refinable, interval);
    CoverBound(t, n as real, left as real, d, 1.0 - s);
  }

  lemma CoverBound(t: real, n: real, left: real, d: real, r: real)
    requires t > 0.0 && 0.0 < n <= left && d > 0.0 && r > 0.0 && r * t <= d * n
    ensures left * (t / left) == t
    ensures 0.0 < t / left <= d / r
  {
    MulMonotone(n, left, d);
    QuotientBound(t, left, d, r);
  }

  lemma PlanCovers(n: int, step: int, refinable: bool, interval: int)
    requires interval > 0
    ensures PlannedSteps(step, n, refinable, interval) >= step + n
  {
    RoundUpIsLeastMultiple(Max(step + n, interval), interval);
  }

  lemma QuotientBound(t: real, left: real, d: real, r: real)
    requires t > 0.0 && left > 0.0 && r > 0.0 && r * t <= d * left
    ensures left * (t / left) == t
    ensures 0.0 < t / left <= d / r
  {
    var dt, b := t / left, d / r;
    assert dt * left == t && b * r == d;
    if dt <= 0.0 {
      MulMonotone(dt, 0.0, left);
    }
    assert (dt * left) * r <= (b * r) * left;
    assert (dt * left) * r == (dt * r) * left && (b * r) * left == (b * left) * r;
    MulCancel(dt * r, b * r, left);
    MulCancel(dt, b, r);
  }

  /** Rounding up to the regrid interval adds no step. */
  predicate FillsIntervals(steps: int, refinable: bool, interval: int)
    requires interval > 0
  {
    refinable ==> steps >= interval && steps % interval == 0
  }

  lemma RoundUpAddsNothingIff(step: int, n: int, refinable: bool, interval: int)
    requires interval > 0
    ensures PlannedSteps(step, n, refinable, interval) == step + n <==> FillsIntervals(step + n, refinable, interval)
  {
    RoundUpIsLeastMultiple(Max(step + n, interval), interval);
  }

  lemma QuotientAbove(t: real, x: real, d: real)
    requires x > 0.0
    ensures t / x > d <==> t > d * x
  {
    var q := t / x;
    assert q * x == t;
    if q > d {
      MulStrict(d, q, x);
    } else {
      MulMonotone(q, d, x);
    }
  }

  lemma ExceedsCore(t: real, d: real, s: real, whole: int, n: int, left: int)
    requires t > 0.0 && d > 0.0 && 0.0 < s < 1.0 && left >= n
    requires d * whole as real <= t < d * whole as real + d
    requires n == if t - d * whole as real > s * t then whole + 1 else whole
    ensures t > d * left as real <==> 0.0 < t - d * whole as real <= s * t && left == n
  {
    if left > whole {
      MulMonotone(whole as real + 1.0, left as real, d);
      assert (whole as real + 1.0) * d == d * whole as real + d;
    }
  }

  lemma PlanShape(t: real, d: real, s: real, step: int, refinable: bool, interval: int)
    requires t > 0.0 && d > 0.0 && 0.0 < s < 1.0 && step >= 0 && interval > 0
    ensures var whole, n := (t / d).Floor, StepsToCover(t, d, s);
            var left := PlannedSteps(step, n, refinable, interval) - step;
            && left >= n >= 1
            && (left == n <==> FillsIntervals(step + n, refinable, interval))
  {
    StepsToCoverBounds(t, d, s);
    PlanCovers(StepsToCover(t, d, s), step, refinable, interval);
    RoundUpAddsNothingIff(step, StepsToCover(t, d, s), refinable, interval);
  }

  /** The computed step size exceeds the maximum one exactly when the rest of the remaining time, after as many
      whole steps of the maximum size as fit into it, is positive but below the tolerance, and the steps
      happen to fill whole regrid intervals. */
  lemma StepSizeExceedsMaxIff(t: real, d: real, s: real, step: int, refinable: bool, interval: int,
                              whole: int, left: int)
    requires t > 0.0 && d > 0.0 && 0.0 < s < 1.0 && step >= 0 && interval > 0
    requires left == PlannedSteps(step, StepsToCover(t, d, s), refinable, interval) - step
    requires whole == (t / d).Floor
    ensures left >= 1
    ensures t / left as real > d
            <==> 0.0 < t - d * whole as real <= s * t && FillsIntervals(step + whole, refinable, interval)
    ensures t / left as real > d ==> left == whole
  {
    FloorOfQuotient(t, d);
    PlanShape(t, d, s, step, refinable, interval);
    QuotientAbove(t, left as real, d);
    ExceedsCore(t, d, s, whole, StepsToCover(t, d, s), left);
  }

  /** After `whole` steps of size `d` a rest below the tolerance is dropped, the remaining steps of size `dtBound`
      would not reach the end, and no step is added by rounding up. */
  predicate DropsRest(t: real, dtBound: real, d: real, s: real, step: int, refinable: bool, interval: int)
    requires d > 0.0 && interval > 0
  {
    var whole := (t / d).Floor;
    t > dtBound * whole as real && t - d * whole as real <= s * t && FillsIntervals(step + whole, refinable, interval)
  }

  /** Above level zero the computed step size exceeds the bound `dtBound` that was asked for, where `d` is the maximum
      step size after growth, exactly under this condition; it never exceeds the remaining time. */
  lemma StepSizeExceedsBoundIff(t: real, dtBound: real, d: real, s: real, step: int, refinable: bool, interval: int,
                                left: int)
    requires t > 0.0 && 0.0 < d <= dtBound && 0.0 < s < 1.0 && step >= 0 && interval > 0
    requires left == PlannedSteps(step, StepsToCover(t, d, s), refinable, interval) - step
    ensures left >= 1 && t / left as real <= t
    ensures t / left as real > dtBound <==> DropsRest(t, dtBound, d, s, step, refinable, interval)
  {
    var whole := (t / d).Floor;
    StepSizeExceedsMaxIff(t, d, s, step, refinable, interval, whole, left);
    FloorOfQuotient(t, d);
    PlanShape(t, d, s, step, refinable, interval);
    QuotientAbove(t, left as real, dtBound);
    QuotientAbove(t, left as real, t);
    MulMonotone(1.0, left as real, t);
    MulMonotone(d, dtBound, whole as real);
  }

  /** Exactly when the promise is kept that the computed step size is neither larger than the bound nor than the
      remaining time: on level zero and when no steps remain, it is not computed from them. */
  predicate KeepsPromise(levelZero: bool, stepsRemain: bool, t: real, dtBound: real, d: real, s: real, step: int,
                         refinable: bool, interval: int)
    requires d > 0.0 && interval > 0
  {
    if !stepsRemain then d <= t
    else if levelZero then t <= dtBound
    else t == 0.0 || !DropsRest(t, dtBound, d, s, step, refinable, interval)
  }

  lemma PromiseKeptIff(levelZero: bool, stepsRemain: bool, t: real, dtBound: real, d: real, s: real, step: int,
                       refinable: bool, interval: int, left: int, dt: real)
    requires t >= 0.0 && 0.0 < d <= dtBound && 0.0 < s < 1.0 && interval > 0
    requires !stepsRemain ==> dt == d
    requires stepsRemain && levelZero ==> dt == t
    requires stepsRemain && !levelZero ==>
               && step >= 0 && left == PlannedSteps(step, StepsToCover(t, d, s), refinable, interval) - step
               && left > 0 && dt == t / left as real
    ensures dt <= dtBound && dt <= t
            <==> KeepsPromise(levelZero, stepsRemain, t, dtBound, d, s, step, refinable, interval)
  {
    if stepsRemain && !levelZero && t > 0.0 {
      StepSizeExceedsBoundIff(t, dtBound, d, s, step, refinable, interval, left);
    }
  }

  /** The bound is exceeded, whatever the tolerance is: one step is planned for a time slightly longer than it. */
  lemma StepSizeExceedsBound(s: real)
    requires 0.0 < s < 1.0
    ensures GrownDt(1.0, 1.0, 1.0) == 1.0
    ensures PlannedSteps(0, StepsToCover(1.0 + s, 1.0, s), false, 1) == 1 && (1.0 + s) / 1.0 > 1.0
  {
    assert ((1.0 + s) / 1.0).Floor == 1;
    MulMonotone(1.0, 1.0 + s, s);
  }

  /** A level that cannot be refined takes a step in its sequence if and only if time remains: an advance of
      the hierarchy by nothing leaves it behind. */
  lemma FreshSequenceStepsIff(t: real, d: real, s: real, interval: int)
    requires t >= 0.0 && d > 0.0 && 0.0 < s < 1.0 && interval > 0
    ensures PlannedSteps(0, StepsToCover(t, d, s), false, interval) > 0 <==> t > 0.0
    ensures PlannedSteps(0, StepsToCover(t, d, s), true, interval) > 0
  {
    PlanCovers(StepsToCover(t, d, s), 0, true, interval);
    RoundUpIsLeastMultiple(Max(StepsToCover(t, d, s), interval), interval);
    if t > 0.0 {
      StepsToCoverBounds(t, d, s);
    } else {
      assert t / d == 0.0;
    }
  }

  /** Remaining time in units of `m / (interval + 2)`. */
  function Quanta(t: real, m: real, interval: int): int
    requires m > 0.0 && interval > 0
  {
    (t / (m / (interval + 2) as real)).Floor
  }

  lemma QuantaMonotone(t': real, t: real, m: real, interval: int)
    requires m > 0.0 && interval > 0 && t' <= t
    ensures Quanta(t', m, interval) <= Quanta(t, m, interval)
    ensures t' >= 0.0 ==> Quanta(t', m, interval) >= 0
  {
    var q := m / (interval + 2) as real;
    assert t' / q * q == t' && t / q * q == t;
    MulCancel(t' / q, t / q, q);
    FloorOfQuotient(t', q);
  }

  lemma QuantumSpent(t: real, dt: real, m: real, interval: int)
    requires m > 0.0 && interval > 0 && dt >= m / (interval + 2) as real
    ensures Quanta(t - dt, m, interval) < Quanta(t, m, interval)
  {
    var q := m / (interval + 2) as real;
    assert (t - dt) / q * q == t - dt && t / q * q == t;
    assert (t / q - 1.0) * q == t - q;
    MulCancel((t - dt) / q, t / q - 1.0, q);
  }

  /** While at least `m` remains, one of the planned steps is worth a whole quantum. */
  lemma StepIsAQuantum(t: real, d: real, m: real, n: int, left: int, interval: int)
    requires 0.0 < m <= d && m <= t && interval > 0 && left >= 1 && n >= 1
    requires d * (n - 1) as real < t && left <= n + interval
    ensures t / left as real >= m / (interval + 2) as real
  {
    var w := (interval + 2) as real;
    var q := m / w;
    assert q * w == m;
    MulMonotone(m, d, (n - 1) as real);
    MulMonotone(left as real, (n - 1) as real + (interval + 1) as real, m);
    assert m * left as real <= t + m * (interval + 1) as real;
    MulMonotone(m, t, (interval + 1) as real);
    assert m * left as real <= t * w;
    assert (q * left as real) * w == m * left as real;
    MulCancel(q * left as real, t, w);
    assert t / left as real * left as real == t;
    MulCancel(q, t / left as real, left as real);
  }

  lemma OneStepCovers(t: real, d: real, s: real)
    requires 0.0 < t < d && 0.0 < s < 1.0
    ensures StepsToCover(t, d, s) == 1
  {
    StepsToCoverBounds(t, d, s);
    if StepsToCover(t, d, s) >= 2 {
      MulMonotone(1.0, (StepsToCover(t, d, s) - 1) as real, d);
    }
  }

  lemma PartOfRest(t: real, left: int)
    requires t > 0.0 && left >= 2
    ensures 0.0 < t / left as real < t
  {
    PositiveQuotient(t, left as real);
    MulStrict(1.0, left as real, t / left as real);
  }

  lemma PositiveQuotient(t: real, x: real)
    requires t > 0.0 && x > 0.0
    ensures t / x > 0.0 && x * (t / x) == t
  {
    var q := t / x;
    assert q * x == t;
    if q < 0.0 {
      MulStrict(q, 0.0, x);
    }
  }

  lemma ReplanShort(n: int, step: int, refinable: bool, interval: int)
    requires step >= 0 && interval > 0 && n == 1
    requires PlannedSteps(step, n, refinable, interval) - step >= 2
    ensures PlannedSteps(step + 1, 1, refinable, interval) <= PlannedSteps(step, n, refinable, interval)
  {
    RoundUpIsLeastMultiple(Max(step + n, interval), interval);
    RoundUpIsLeastMultiple(Max(step + 2, interval), interval);
  }

  lemma PlanAtMost(n: int, step: int, refinable: bool, interval: int)
    requires step >= 0 && interval > 0 && n >= 1
    ensures PlannedSteps(step, n, refinable, interval) - step <= n + interval
  {
    RoundUpIsLeastMultiple(Max(step + n, interval), interval);
  }

  /** With at least `m` left, the step spends a quantum. */
  lemma FarStepShrinks(t: real, d: real, m: real, s: real, step: int, refinable: bool, interval: int, n: int, left: int)
    requires 0.0 < m <= d && t >= m && 0.0 < s < 1.0 && step >= 0 && interval > 0
    requires n == StepsToCover(t, d, s) && left == PlannedSteps(step, n, refinable, interval) - step && left >= 2
    ensures Quanta(t - t / left as real, m, interval) < Quanta(t, m, interval)
  {
    hide StepsToCover, PlannedSteps, Quanta;
    StepsToCoverBounds(t, d, s);
    PlanAtMost(n, step, refinable, interval);
    StepIsAQuantum(t, d, m, n, left, interval);
    QuantumSpent(t, t / left as real, m, interval);
  }

  /** With less than `m` left, no step is added to the plan. */
  lemma NearStepShrinks(t: real, t': real, d: real, d': real, m: real, s: real, step: int, refinable: bool,
                        interval: int)
    requires 0.0 < t' <= t < m <= d && m <= d' && 0.0 < s < 1.0 && step >= 0 && interval > 0
    requires PlannedSteps(step, StepsToCover(t, d, s), refinable, interval) - step >= 2
    ensures PlannedSteps(step + 1, StepsToCover(t', d', s), refinable, interval)
            <= PlannedSteps(step, StepsToCover(t, d, s), refinable, interval)
  {
    OneStepCovers(t, d, s);
    OneStepCovers(t', d', s);
    ReplanShort(1, step, refinable, interval);
  }

  /** The termination measure of a step sequence: every step but the last lowers, lexicographically, the
      remaining time in quanta and the number of steps left, although the plan is made anew after it. */
  lemma PlanShrinks(t: real, t': real, d: real, d': real, m: real, s: real, step: int, refinable: bool,
                    interval: int, left: int)
    requires t > 0.0 && 0.0 < m <= d && m <= d' && 0.0 < s < 1.0 && step >= 0 && interval > 0
    requires left == PlannedSteps(step, StepsToCover(t, d, s), refinable, interval) - step && left >= 2
    requires t' == t - t / left as real
    ensures 0.0 < t' < t
    ensures 0 <= Quanta(t', m, interval) <= Quanta(t, m, interval)
    ensures Quanta(t', m, interval) < Quanta(t, m, interval)
            || PlannedSteps(step + 1, StepsToCover(t', d', s), refinable, interval) - (step + 1) < left
  {
    PartOfRest(t, left);
    QuantaMonotone(t', t, m, interval);
    if t >= m {
      FarStepShrinks(t, d, m, s, step, refinable, interval, StepsToCover(t, d, s), left);
    } else {
      NearStepShrinks(t, t', d, d', m, s, step, refinable, interval);
    }
  }

  /** What is left of a sequence: the remaining time, the maximum step size, and the steps taken. */
  datatype Rest = Rest(time: real, dtMax: real, step: int)

  /** The number of steps planned for the rest. */
  function PlannedRest(r: Rest, s: real, refinable: bool, interval: int): int
    requires r.dtMax > 0.0 && interval > 0
  {
    PlannedSteps(r.step, StepsToCover(r.time, r.dtMax, s), refinable, interval) - r.step
  }

  /** The rest after one step, when the advance limits the step size no further than growth by `g` does. */
  function RestAfterStep(r: Rest, g: real, s: real, refinable: bool, interval: int): Rest
    requires r.dtMax > 0.0 && interval > 0
  {
    var left := PlannedRest(r, s, refinable, interval);
    Rest(if left <= 0 then r.time else r.time - r.time / left as real, r.dtMax * g, r.step + 1)
  }

  function RestAfterSteps(r: Rest, g: real, s: real, refinable: bool, interval: int, k: nat): (r': Rest)
    requires r.dtMax > 0.0 && g > 0.0 && interval > 0
    ensures r'.dtMax > 0.0
  {
    if k == 0 then r else RestAfterStep(RestAfterSteps(r, g, s, refinable, interval, k - 1), g, s, refinable, interval)
  }

  /** Some step of the sequence is planned to be the last one. */
  ghost predicate SequenceEnds(r: Rest, g: real, s: real, refinable: bool, interval: int)
    requires r.dtMax > 0.0 && g > 0.0 && interval > 0
  {
    exists k: nat :: PlannedRest(RestAfterSteps(r, g, s, refinable, interval, k), s, refinable, interval) <= 1
  }

  lemma {:induction false} AfterStepsShift(r: Rest, g: real, s: real, refinable: bool, interval: int, k: nat)
    requires r.dtMax > 0.0 && g > 0.0 && interval > 0
    ensures r.dtMax * g > 0.0
    ensures RestAfterSteps(RestAfterStep(r, g, s, refinable, interval), g, s, refinable, interval, k) ==
            RestAfterSteps(r, g, s, refinable, interval, k + 1)
  {
    MulStrict(0.0, r.dtMax, g);
    if k > 0 {
      AfterStepsShift(r, g, s, refinable, interval, k - 1);
    } else {
      assert RestAfterSteps(r, g, s, refinable, interval, 0) == r;
    }
  }

  /** One step that is not the last lowers the measure, and leaves time and a step size of at least `m`. */
  lemma RestShrinks(r: Rest, g: real, s: real, refinable: bool, interval: int, m: real, r': Rest)
    requires r.time > 0.0 && 0.0 < m <= r.dtMax && r.step >= 0 && g >= 1.0 && 0.0 < s < 1.0 && interval > 0
    requires PlannedRest(r, s, refinable, interval) > 1 && r' == RestAfterStep(r, g, s, refinable, interval)
    ensures r'.time > 0.0 && m <= r'.dtMax && r'.step >= 0 && PlannedRest(r', s, refinable, interval) >= 0
    ensures var q, q' := Quanta(r.time, m, interval), Quanta(r'.time, m, interval);
            0 <= q' < q || (0 <= q' == q
                            && PlannedRest(r', s, refinable, interval) < PlannedRest(r, s, refinable, interval))
  {
    MulMonotone(1.0, g, r.dtMax);
    PlanShrinks(r.time, r'.time, r.dtMax, r'.dtMax, m, s, r.step, refinable, interval,
                PlannedRest(r, s, refinable, interval));
    PlanLeavesSteps(r'.time, r'.dtMax, s, r'.step, refinable, interval);
  }

  lemma {:induction false} SequenceEndsWithGrowth(r: Rest, g: real, s: real, refinable: bool, interval: int, m: real)
    requires r.time > 0.0 && 0.0 < m <= r.dtMax && r.step >= 0 && g >= 1.0 && 0.0 < s < 1.0 && interval > 0
    ensures SequenceEnds(r, g, s, refinable, interval)
    decreases Quanta(r.time, m, interval), PlannedRest(r, s, refinable, interval)
  {
    var left, r' := PlannedRest(r, s, refinable, interval), RestAfterStep(r, g, s, refinable, interval);
    if left <= 1 {
      assert RestAfterSteps(r, g, s, refinable, interval, 0) == r;
    } else {
      RestShrinks(r, g, s, refinable, interval, m, r');
      SequenceEndsWithGrowth(r', g, s, refinable, interval, m);
      EndsOneLater(r, g, s, refinable, interval);
    }
  }

  lemma EndsOneLater(r: Rest, g: real, s: real, refinable: bool, interval: int)
    requires r.dtMax > 0.0 && g > 0.0 && interval > 0 && RestAfterStep(r, g, s, refinable, interval).dtMax > 0.0
    requires SequenceEnds(RestAfterStep(r, g, s, refinable, interval), g, s, refinable, interval)
    ensures SequenceEnds(r, g, s, refinable, interval)
  {
    var r' := RestAfterStep(r, g, s, refinable, interval);
    var k: nat :| PlannedRest(RestAfterSteps(r', g, s, refinable, interval, k), s, refinable, interval) <= 1;
    AfterStepsShift(r, g, s, refinable, interval, k);
    assert PlannedRest(RestAfterSteps(r, g, s, refinable, interval, k + 1), s, refinable, interval) <= 1;
  }

  /** The remaining time is worth at least `n` steps of the maximum size. */
  predicate WorthSteps(r: Rest, n: int) {
    r.dtMax > 0.0 && r.time >= n as real * r.dtMax
  }

  /** With growth below one the step size can shrink faster than the remaining time, for ever. */
  lemma {:induction false} SequenceStalls(r: Rest, n: int, g: real, s: real, refinable: bool, interval: int, k: nat)
    requires 0.0 < g < 1.0 && 0.0 < s < 1.0 && n >= 2 && n as real * (1.0 - g) >= 1.0 && interval > 0
    requires WorthSteps(r, n)
    ensures WorthSteps(RestAfterSteps(r, g, s, refinable, interval, k), n)
  {
    if k > 0 {
      SequenceStalls(r, n, g, s, refinable, interval, k - 1);
      StalledStep(RestAfterSteps(r, g, s, refinable, interval, k - 1), g, s, refinable, interval, n);
    }
  }

  lemma StalledStep(r: Rest, g: real, s: real, refinable: bool, interval: int, n: int)
    requires 0.0 < g < 1.0 && 0.0 < s < 1.0 && n >= 2 && n as real * (1.0 - g) >= 1.0 && interval > 0
    requires WorthSteps(r, n)
    ensures WorthSteps(RestAfterStep(r, g, s, refinable, interval), n)
  {
    ManySteps(r, s, refinable, interval, n);
    RatioGrows(r.time, r.dtMax, g, n, PlannedRest(r, s, refinable, interval));
    MulStrict(0.0, r.dtMax, g);
  }

  lemma ManySteps(r: Rest, s: real, refinable: bool, interval: int, n: int)
    requires n >= 2 && WorthSteps(r, n) && 0.0 < s < 1.0 && interval > 0
    ensures PlannedRest(r, s, refinable, interval) >= n
  {
    var q := r.time / r.dtMax;
    assert q * r.dtMax == r.time;
    MulCancel(n as real, q, r.dtMax);
    PlanCovers(StepsToCover(r.time, r.dtMax, s), r.step, refinable, interval);
  }

  lemma RatioGrows(t: real, d: real, g: real, n: int, c: int)
    requires d > 0.0 && 0.0 < g < 1.0 && n >= 2 && c >= n
    requires n as real * (1.0 - g) >= 1.0 && t >= n as real * d
    ensures t - t / c as real >= n as real * (d * g)
  {
    MulStrict(0.0, n as real, d);
    PositiveQuotient(t, c as real);
    var x := t / c as real;
    MulMonotone(n as real, c as real, x);
    MulMonotone(1.0, n as real * (1.0 - g), x);
    assert x <= (n as real * x) * (1.0 - g);
    MulMonotone(n as real * x, t, 1.0 - g);
    assert t - x >= t * g;
    MulMonotone(n as real * d, t, g);
  }

  /** On every level, whether it can be refined or not, the step sequence ends for every remaining time and step
      size if and only if the growth factor is at least one. */
  lemma SequenceEndsIffGrowthAtLeastOne(g: real, s: real, refinable: bool, interval: int)
    requires g > 0.0 && 0.0 < s < 1.0 && interval > 0
    ensures (forall t, d | t > 0.0 && d > 0.0 :: SequenceEnds(Rest(t, d, 0), g, s, refinable, interval)) <==> g >= 1.0
  {
    if g >= 1.0 {
      forall t, d | t > 0.0 && d > 0.0
        ensures SequenceEnds(Rest(t, d, 0), g, s, refinable, interval)
      {
        SequenceEndsWithGrowth(Rest(t, d, 0), g, s, refinable, interval, d);
      }
    } else {
      var x := 1.0 / (1.0 - g);
      var n := x.Floor + 2;
      assert x * (1.0 - g) == 1.0;
      MulCancel(0.0, x, 1.0 - g);
      MulMonotone(x, n as real, 1.0 - g);
      NeverLast(Rest(n as real, 1.0, 0), n, g, s, refinable, interval);
    }
  }

  lemma NeverLast(r: Rest, n: int, g: real, s: real, refinable: bool, interval: int)
    requires 0.0 < g < 1.0 && 0.0 < s < 1.0 && n >= 2 && n as real * (1.0 - g) >= 1.0 && interval > 0
    requires WorthSteps(r, n)
    ensures !SequenceEnds(r, g, s, refinable, interval)
  {
    forall k: nat
      ensures PlannedRest(RestAfterSteps(r, g, s, refinable, interval, k), s, refinable, interval) >= 2
    {
      SequenceStalls(r, n, g, s, refinable, interval, k);
      ManySteps(RestAfterSteps(r, g, s, refinable, interval, k), s, refinable, interval, n);
    }
  }
}
