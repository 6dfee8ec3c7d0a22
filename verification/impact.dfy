/** The impact page's count-up animation: four counters start at zero and, on
    every tick of a 60-step timer, move towards their targets by a fixed step,
    never past them. */
module Impact {

  /** The number of ticks the animation is laid out for. */
  const Steps: nat := 60

  /** `Math.ceil(target / steps)` for a non-negative target. */
  function StepSize(target: nat): (step: nat)
    ensures step * Steps >= target
    ensures target > 0 ==> step > 0
    ensures (step - 1) * Steps < target
  {
    (target + Steps - 1) / Steps
  }

  /** One tick of one counter: `Math.min(prev + step, target)`. */
  function Tick(prev: int, target: nat): (next: int)
    ensures next <= target
    ensures prev <= target ==> prev <= next
    ensures prev == target ==> next == target
    ensures next == target || next == prev + StepSize(target)
  {
    if prev + StepSize(target) < target then prev + StepSize(target) else target
  }

  /** `n` ticks of one counter. */
  function Run(prev: int, target: nat, n: nat): int
    decreases n
  {
    if n == 0 then prev else Run(Tick(prev, target), target, n - 1)
  }

  /** From zero, `n` ticks reach `min(n * step, target)`. */
  lemma {:induction false} RunFromZero(target: nat, n: nat)
    ensures Run(0, target, n) == if n * StepSize(target) < target then n * StepSize(target) else target
  {
    RunFrom(0, target, n);
  }

  /** From any start at or below the target, `n` ticks reach
      `min(start + n * step, target)`. */
  lemma {:induction false} RunFrom(start: int, target: nat, n: nat)
    requires start <= target
    decreases n
    ensures Run(start, target, n) ==
      if start + n * StepSize(target) < target then start + n * StepSize(target) else target
  {
    if n > 0 {
      var s := StepSize(target);
      var next := Tick(start, target);
      RunFrom(next, target, n - 1);
      if start + s < target {
        assert next == start + s;
        assert next + (n - 1) * s == start + n * s;
      } else {
        assert next == target;
        assert start + n * s >= target;
        RunAtTarget(target, n - 1);
      }
    }
  }

  /** A counter at its target stays there. */
  lemma {:induction false} RunAtTarget(target: nat, n: nat)
    decreases n
    ensures Run(target, target, n) == target
  {
    if n > 0 {
      RunAtTarget(target, n - 1);
    }
  }

  /** Ticks never lower a counter that started at or below its target, and never
      lift it past the target. */
  lemma {:induction false} RunMonotone(start: int, target: nat, n: nat)
    requires start <= target
    decreases n
    ensures start <= Run(start, target, n) <= target
  {
    if n > 0 {
      RunMonotone(Tick(start, target), target, n - 1);
    }
  }

  /** Sixty ticks from zero always land exactly on the target. */
  lemma ReachesTargetInSteps(target: nat)
    ensures Run(0, target, Steps) == target
  {
    RunFromZero(target, Steps);
  }

  /** The four animated counters. */
  datatype Counters = Counters(donations: int, children: int, cities: int, smiles: int)

  const Start: Counters := Counters(0, 0, 0, 0)
  const Targets: Counters := Counters(1250, 520, 18, 1500)

  /** One timer tick: each counter moves on its own value and its own target. */
  function TickAll(c: Counters): (r: Counters)
    ensures r.donations <= Targets.donations && r.children <= Targets.children
    ensures r.cities <= Targets.cities && r.smiles <= Targets.smiles
    ensures c.donations <= Targets.donations ==> c.donations <= r.donations
    ensures c.children <= Targets.children ==> c.children <= r.children
    ensures c.cities <= Targets.cities ==> c.cities <= r.cities
    ensures c.smiles <= Targets.smiles ==> c.smiles <= r.smiles
  {
    Counters(Tick(c.donations, Targets.donations), Tick(c.children, Targets.children),
             Tick(c.cities, Targets.cities), Tick(c.smiles, Targets.smiles))
  }

  /** Changing one counter before a tick changes no other counter after it. */
  lemma CountersIndependent(c: Counters, v: int)
    ensures TickAll(c.(donations := v)).(donations := 0) == TickAll(c).(donations := 0)
    ensures TickAll(c.(children := v)).(children := 0) == TickAll(c).(children := 0)
    ensures TickAll(c.(cities := v)).(cities := 0) == TickAll(c).(cities := 0)
    ensures TickAll(c.(smiles := v)).(smiles := 0) == TickAll(c).(smiles := 0)
  {
  }

  function RunAll(c: Counters, n: nat): Counters
    decreases n
  {
    if n == 0 then c else RunAll(TickAll(c), n - 1)
  }

  /** Running all four counters is running each one on its own. */
  lemma {:induction false} RunAllPointwise(c: Counters, n: nat)
    decreases n
    ensures RunAll(c, n) == Counters(Run(c.donations, Targets.donations, n), Run(c.children, Targets.children, n),
                                     Run(c.cities, Targets.cities, n), Run(c.smiles, Targets.smiles, n))
  {
    if n > 0 {
      RunAllPointwise(TickAll(c), n - 1);
    }
  }

  /** The animation, started from all zeros, shows the final figures after 60 ticks. */
  lemma AnimationCompletes()
    ensures RunAll(Start, Steps) == Targets
  {
    RunAllPointwise(Start, Steps);
    ReachesTargetInSteps(Targets.donations);
    ReachesTargetInSteps(Targets.children);
    ReachesTargetInSteps(Targets.cities);
    ReachesTargetInSteps(Targets.smiles);
  }
}
