/** The tracker's thresholds, derived from its options: src/agent/loop-detector.ts:174-213. */
module LoopLimits {
  import opened Wrappers
  import opened Numbers

  const LOOP_WARNING_BUCKET_SIZE := 10

  datatype Options = Options(
    warningThreshold: Option<int>, criticalThreshold: Option<int>, breakerVetoStreak: Option<int>,
    historySize: Option<int>, wanderingThreshold: Option<int>, wanderingEscalation: Option<int>,
    warningBucketSize: Option<int>)

  datatype Limits = Limits(
    warning: nat, critical: nat, breaker: nat, wandering: nat, escalation: nat,
    historySize: nat, ceiling: nat, windowWarning: nat, bucketSize: nat)

  function Or(x: Option<int>, default: int): int {
    if x.Some? then x.value else default
  }

  /** The smallest integer not below three fifths of the window (`WANDERING_CEILING_SHARE`). */
  function CeilingShare(size: nat): nat { (3 * size + 4) / 5 }

  /** `Math.round(a / b)`: halves go up. */
  function Rounded(a: nat, b: nat): nat
    requires b > 0
  {
    (2 * a + b) / (2 * b)
  }

  function Derived(o: Options): Limits {
    var warning := Max(2, Or(o.warningThreshold, 3));
    var critical := Max(warning, Or(o.criticalThreshold, 5));
    var breaker := Max(1, Or(o.breakerVetoStreak, 3));
    var wandering := Max(2, Or(o.wanderingThreshold, 6));
    var escalation := Max(wandering, Or(o.wanderingEscalation, 12));
    var size := Max(critical, Max(escalation, Or(o.historySize, 30)));
    var ceiling := Max(2, CeilingShare(size));
    var rung := Max(2, Rounded(ceiling * wandering, escalation));
    Limits(warning, critical, breaker, wandering, escalation, size, ceiling,
           if ceiling - 1 <= rung then ceiling - 1 else rung,
           Max(1, Or(o.warningBucketSize, LOOP_WARNING_BUCKET_SIZE)))
  }

  /** What every option set guarantees: both ladders climb, and the window can hold each rung. */
  ghost predicate Ladder(l: Limits) {
    && 2 <= l.warning <= l.critical <= l.historySize
    && 1 <= l.breaker && 1 <= l.bucketSize
    && 2 <= l.wandering <= l.escalation <= l.historySize
    && 1 <= l.windowWarning < l.ceiling <= l.historySize
    && 2 <= l.ceiling
  }

  lemma EveryOptionSetClimbs(o: Options)
    ensures Ladder(Derived(o))
  {
  }

  /** The run ladder warns before it stops exactly if its stop is set above its warning, both with their floors. */
  lemma RunLadderClimbsExactly(o: Options)
    ensures Derived(o).wandering < Derived(o).escalation <==>
      Max(2, Or(o.wanderingThreshold, 6)) < Or(o.wanderingEscalation, 12)
  {
  }

  /** v is the value asked for, unless that is below the floor. */
  ghost predicate AtLeast(v: int, asked: int, floor: int) { v == asked >= floor || v == floor > asked }

  /** The integer nearest to a / b, the larger of two. */
  ghost predicate Nearest(r: int, a: int, b: int) { -b < 2 * (r * b - a) <= b }

  lemma RoundedNearest(a: nat, b: nat)
    requires b > 0
    ensures Nearest(Rounded(a, b), a, b)
  {
    var r := Rounded(a, b);
    assert r * (2 * b) <= 2 * a + b < (r + 1) * (2 * b);
  }

  /**
   * Every option counts, or its default, down to its floor. The window holds every rung, its stop is the least
   * integer of three fifths of it, and its warning the nearest to the run ladder's share of that, at least two and
   * below the stop.
   */
  lemma DerivedExactly(o: Options) returns (rung: nat)
    ensures var l := Derived(o);
      && AtLeast(l.warning, Or(o.warningThreshold, 3), 2) && AtLeast(l.critical, Or(o.criticalThreshold, 5), l.warning)
      && AtLeast(l.breaker, Or(o.breakerVetoStreak, 3), 1) && AtLeast(l.bucketSize, Or(o.warningBucketSize, 10), 1)
      && AtLeast(l.wandering, Or(o.wanderingThreshold, 6), 2)
      && AtLeast(l.escalation, Or(o.wanderingEscalation, 12), l.wandering)
      && AtLeast(l.historySize, Or(o.historySize, 30), Max(l.critical, l.escalation))
      && 5 * l.ceiling >= 3 * l.historySize && (l.ceiling == 2 || 5 * (l.ceiling - 1) < 3 * l.historySize)
      && Nearest(rung, l.ceiling * l.wandering, l.escalation)
      && l.windowWarning == Min(l.ceiling - 1, Max(2, rung))
  {
    var l := Derived(o);
    RoundedNearest(l.ceiling * l.wandering, l.escalation);
    rung := Rounded(l.ceiling * l.wandering, l.escalation);
  }

  /** The limits of a tracker without options. */
  lemma DefaultLimits()
    ensures Derived(Options(None, None, None, None, None, None, None)) == Limits(3, 5, 3, 6, 12, 30, 18, 9, 10)
  {
  }
}
