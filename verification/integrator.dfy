/**
 * One simulation tick: for each body in turn, the net gravitational force of
 * all other bodies, a semi-implicit Euler step (velocity first, then position
 * with the new velocity), a bounded trail sample and, for every body but the
 * central one, a detector step. Bodies are updated in place inside the same
 * loop, so body i sees the already-moved positions of bodies before it.
 */
module Integrator {
  import opened Wrappers
  import opened Vectors
  import opened Units
  import opened OrbitDetector
  import opened Bodies

  /** How many recent positions a body's trail keeps. */
  const TrailCapacity: nat := 500

  /** A detector event, tagged with the index of the body it concerns. */
  datatype OrbitReport = OrbitReport(planet: nat, event: OrbitEvent)

  /**
   * The time step: the parsed input, or 1 when parsing gives 0 or NaN
   * (`None`).
   */
  function EffectiveDt(parsed: Option<real>): (dt: real)
    ensures dt != 0.0
    ensures parsed.Some? && parsed.value != 0.0 ==> dt == parsed.value
    ensures parsed.None? || parsed.value == 0.0 ==> dt == 1.0
  {
    if parsed.Some? && parsed.value != 0.0 then parsed.value else 1.0
  }

  /** Append a sample, dropping the oldest one once the trail exceeds its capacity. */
  function PushTrail(trail: seq<Vec3>, p: Vec3): (r: seq<Vec3>)
    ensures |r| > 0 && r[|r| - 1] == p
    ensures |trail| < TrailCapacity ==> r == trail + [p]
    ensures |trail| >= TrailCapacity ==> r == trail[1..] + [p]
    ensures |trail| <= TrailCapacity ==> |r| <= TrailCapacity
  {
    var pushed := trail + [p];
    if |pushed| > TrailCapacity then pushed[1..] else pushed
  }

  /** The force `other` exerts on `body`; a coincident pair (distance 0) is skipped. */
  function PairForce(num: Numerics, body: Body, other: Body): (f: Vec3)
    ensures num.length(Sub(other.position, body.position)) <= 0.0 ==> f == Zero
  {
    var r := Sub(other.position, body.position);
    var distance := num.length(r);
    if distance > 0.0 then
      Scale(Normalize(num.length, r), G * body.mass * other.mass / (distance * distance))
    else
      Zero
  }

  /** Two bodies at the same position exert no force on each other. */
  lemma CoincidentPairExertsNoForce(num: Numerics, body: Body, other: Body)
    requires IsLength(num.length)
    requires body.position == other.position
    ensures PairForce(num, body, other) == Zero
  {
    assert Sub(other.position, body.position) == Zero;
    LengthZeroIff(num.length, Zero);
  }

  lemma ScaledOpposite(r: Vec3, d: real, k: real)
    requires d != 0.0
    ensures Scale(Scale(r, 1.0 / d), k) == Neg(Scale(Scale(Neg(r), 1.0 / d), k))
  {
    var c := 1.0 / d;
    assert (-r.x) * c * k == -(r.x * c * k);
    assert (-r.y) * c * k == -(r.y * c * k);
    assert (-r.z) * c * k == -(r.z * c * k);
  }

  lemma MagnitudeSymmetric(g: real, ma: real, mb: real, dd: real)
    requires dd != 0.0
    ensures g * ma * mb / dd == g * mb * ma / dd
  {
    assert g * ma * mb == g * mb * ma;
  }

  lemma PairForceApart(num: Numerics, body: Body, other: Body, d: real)
    requires d == num.length(Sub(other.position, body.position)) && d > 0.0
    ensures PairForce(num, body, other)
        == Scale(Scale(Sub(other.position, body.position), 1.0 / d), G * body.mass * other.mass / (d * d))
  {
  }

  lemma PairForceWithin(num: Numerics, body: Body, other: Body, d: real)
    requires d == num.length(Sub(other.position, body.position)) && d <= 0.0
    ensures PairForce(num, body, other) == Zero
  {
  }

  lemma InverseCube(x: real, d: real, g: real)
    requires d != 0.0
    ensures x * (1.0 / d) * (g / (d * d)) == x * (g / (d * d * d))
  {
    assert (1.0 / d) * (g / (d * d)) == g / (d * d * d);
  }

  /**
   * Newton's law of gravitation: for distinct positions the pull points from
   * `body` towards `other` and is G m M / d³ times the separation vector,
   * so its size is G m M / d² when `length` is a true length.
   */
  lemma PairForceInverseSquare(num: Numerics, body: Body, other: Body)
    requires num.length(Sub(other.position, body.position)) > 0.0
    ensures var r := Sub(other.position, body.position);
      var d := num.length(r);
      PairForce(num, body, other) == Scale(r, G * body.mass * other.mass / (d * d * d))
  {
    var r := Sub(other.position, body.position);
    var d := num.length(r);
    var g := G * body.mass * other.mass;
    PairForceApart(num, body, other, d);
    assert PairForce(num, body, other) == Scale(Scale(r, 1.0 / d), g / (d * d));
    InverseCube(r.x, d, g);
    InverseCube(r.y, d, g);
    InverseCube(r.z, d, g);
  }

  lemma NegZero()
    ensures Neg(Zero) == Zero
  {
  }

  /** Newton's third law: evaluated at the same positions, a pair's forces are opposite. */
  lemma PairForceOpposite(num: Numerics, a: Body, b: Body)
    requires IsLength(num.length)
    ensures PairForce(num, a, b) == Neg(PairForce(num, b, a))
  {
    var r := Sub(b.position, a.position);
    var d := num.length(r);
    assert Sub(a.position, b.position) == Neg(r);
    assert num.length(Neg(r)) == d by {
      LengthOfNeg(num.length, r);
    }
    if d > 0.0 {
      var k := G * a.mass * b.mass / (d * d);
      assert PairForce(num, a, b) == Scale(Scale(r, 1.0 / d), k) by {
        PairForceApart(num, a, b, d);
      }
      assert PairForce(num, b, a) == Scale(Scale(Neg(r), 1.0 / d), k) by {
        PairForceApart(num, b, a, d);
        MagnitudeSymmetric(G, a.mass, b.mass, d * d);
      }
      ScaledOpposite(r, d, k);
    } else {
      PairForceWithin(num, a, b, d);
      PairForceWithin(num, b, a, d);
      NegZero();
    }
  }

  /** The force on body i from bodies 0 .. n-1, added in index order, skipping i itself. */
  function NetForce(num: Numerics, bs: seq<Body>, i: nat, n: nat): Vec3
    requires i < |bs| && n <= |bs|
  {
    if n == 0 then Zero
    else
      var f := NetForce(num, bs, i, n - 1);
      if n - 1 == i then f else Add(f, PairForce(num, bs[i], bs[n - 1]))
  }

  /** A body that every other body sits on feels no force at all. */
  lemma {:induction false} NoForceFromCoincidentBodies(num: Numerics, bs: seq<Body>, i: nat, n: nat)
    requires IsLength(num.length)
    requires i < |bs| && n <= |bs|
    requires forall j :: 0 <= j < |bs| ==> bs[j].position == bs[i].position
    ensures NetForce(num, bs, i, n) == Zero
  {
    if n > 0 {
      NoForceFromCoincidentBodies(num, bs, i, n - 1);
      if n - 1 != i {
        CoincidentPairExertsNoForce(num, bs[i], bs[n - 1]);
      }
    }
  }

  /** In a system of two bodies the net forces on them are opposite: their sum is zero. */
  lemma TwoBodyForcesOpposite(num: Numerics, bs: seq<Body>)
    requires IsLength(num.length) && |bs| == 2
    ensures NetForce(num, bs, 0, 2) == Neg(NetForce(num, bs, 1, 2))
  {
    var p := PairForce(num, bs[0], bs[1]);
    var q := PairForce(num, bs[1], bs[0]);
    PairForceOpposite(num, bs[0], bs[1]);
    assert NetForce(num, bs, 0, 1) == Zero;
    assert NetForce(num, bs, 0, 2) == Add(Zero, p);
    assert NetForce(num, bs, 1, 1) == Add(Zero, q);
    assert NetForce(num, bs, 1, 2) == Add(Zero, q);
  }

  /** The inner `forEach` of the force pass: every other body's pull, in index order. */
  method AccumulateForce(num: Numerics, bs: seq<Body>, i: nat) returns (force: Vec3)
    requires i < |bs|
    ensures force == NetForce(num, bs, i, |bs|)
  {
    force := Zero;
    var j := 0;
    while j < |bs|
      invariant j <= |bs|
      invariant force == NetForce(num, bs, i, j)
    {
      if j != i {
        force := Add(force, PairForce(num, bs[i], bs[j]));
      }
      j := j + 1;
    }
  }

  function Reports(planet: nat, events: seq<OrbitEvent>): (rs: seq<OrbitReport>)
    ensures |rs| == |events|
    ensures forall k :: 0 <= k < |rs| ==> rs[k] == OrbitReport(planet, events[k])
  {
    seq(|events|, k requires 0 <= k < |events| => OrbitReport(planet, events[k]))
  }

  /** The reports body i's detector makes at its new position: none for the central body. */
  function DetectorReports(num: Numerics, b: Body, i: nat, position: Vec3, currentTime: real): (rs: seq<OrbitReport>)
    ensures forall k :: 0 <= k < |rs| ==> rs[k].planet == i && i > 0
  {
    if i > 0 then Reports(i, Detect(b.tracker, Observe(num, b.tracker, position), currentTime).1) else []
  }

  /**
   * Body i's update within a tick, given the bodies as they are at that point
   * of the loop; `currentTime` is the clock before this tick's increment.
   */
  function StepBody(num: Numerics, bs: seq<Body>, i: nat, dt: real, currentTime: real): (r: (Body, seq<OrbitReport>))
    requires i < |bs| && bs[i].mass != 0.0
    ensures r.0.mass == bs[i].mass
    ensures forall k :: 0 <= k < |r.1| ==> r.1[k].planet == i && i > 0
  {
    var b := bs[i];
    var acceleration := Scale(NetForce(num, bs, i, |bs|), 1.0 / b.mass);
    var velocity := Add(b.velocity, Scale(acceleration, dt));
    var position := Add(b.position, Scale(velocity, dt));
    var trail := PushTrail(b.trail, position);
    if i > 0 then
      var detected := Detect(b.tracker, Observe(num, b.tracker, position), currentTime);
      (Body(b.mass, position, velocity, trail, detected.0), Reports(i, detected.1))
    else
      (Body(b.mass, position, velocity, trail, b.tracker), [])
  }

  ghost predicate MassesPositive(bs: seq<Body>) {
    forall j :: 0 <= j < |bs| ==> bs[j].mass > 0.0
  }

  /**
   * A per-body update rule, as the tick loop applies one: defined whenever
   * body i exists and has non-zero mass, it keeps that mass and reports only
   * about body i, never about the central body.
   */
  ghost predicate IsStepRule(rule: (seq<Body>, nat) --> (Body, seq<OrbitReport>)) {
    forall bs: seq<Body>, i: nat {:trigger rule.requires(bs, i)} :: i < |bs| && bs[i].mass != 0.0 ==>
      && rule.requires(bs, i)
      && rule(bs, i).0.mass == bs[i].mass
      && (forall k :: 0 <= k < |rule(bs, i).1| ==> rule(bs, i).1[k].planet == i && i > 0)
  }

  /** The rule `updatePhysics` applies to body i, with time step `dt` and the clock before the tick. */
  function StepRule(num: Numerics, dt: real, currentTime: real): (rule: (seq<Body>, nat) --> (Body, seq<OrbitReport>))
    ensures IsStepRule(rule)
  {
    (bs: seq<Body>, i: nat) requires i < |bs| && bs[i].mass != 0.0 => StepBody(num, bs, i, dt, currentTime)
  }

  /**
   * The first n bodies updated one after another by `rule`, each written back
   * before the next is reached; the bodies from n on are not yet touched.
   */
  function Sweep(rule: (seq<Body>, nat) --> (Body, seq<OrbitReport>), bs: seq<Body>, n: nat): (r: (seq<Body>, seq<OrbitReport>))
    requires IsStepRule(rule) && n <= |bs| && MassesPositive(bs)
    ensures |r.0| == |bs| && MassesPositive(r.0)
    ensures forall j :: n <= j < |bs| ==> r.0[j] == bs[j]
    ensures forall j :: 0 <= j < |bs| ==> r.0[j].mass == bs[j].mass
    ensures forall j :: 0 <= j < |r.1| ==> 0 < r.1[j].planet < n
    decreases n
  {
    if n == 0 then (bs, [])
    else
      var prev := Sweep(rule, bs, n - 1);
      var step := rule(prev.0, n - 1);
      (prev.0[n - 1 := step.0], prev.1 + step.1)
  }

  /** Extending a sweep by one body: write back the rule's result for body n and append its reports. */
  lemma SweepExtends(rule: (seq<Body>, nat) --> (Body, seq<OrbitReport>), bs: seq<Body>, n: nat,
                     next: seq<Body>, reports: seq<OrbitReport>, body: Body, events: seq<OrbitReport>)
    requires IsStepRule(rule) && n < |bs| && MassesPositive(bs)
    requires Sweep(rule, bs, n) == (next, reports)
    requires rule.requires(next, n) && rule(next, n) == (body, events)
    ensures Sweep(rule, bs, n + 1) == (next[n := body], reports + events)
  {
  }

  /** One tick of `updatePhysics` over all bodies: the new bodies and the revolutions reported. */
  function Tick(num: Numerics, bs: seq<Body>, dt: real, currentTime: real): (r: (seq<Body>, seq<OrbitReport>))
    requires MassesPositive(bs)
    ensures |r.0| == |bs| && MassesPositive(r.0)
    ensures forall j :: 0 <= j < |bs| ==> r.0[j].mass == bs[j].mass
    ensures forall j :: 0 <= j < |r.1| ==> 0 < r.1[j].planet < |bs|
  {
    Sweep(StepRule(num, dt, currentTime), bs, |bs|)
  }

  /** Once body i has been stepped, later steps of the sweep leave it alone. */
  lemma {:induction false} SweepKeepsDone(rule: (seq<Body>, nat) --> (Body, seq<OrbitReport>), bs: seq<Body>, i: nat, n: nat)
    requires IsStepRule(rule) && i < n <= |bs| && MassesPositive(bs)
    ensures Sweep(rule, bs, n).0[i] == Sweep(rule, bs, i + 1).0[i]
    decreases n
  {
    if n > i + 1 {
      SweepKeepsDone(rule, bs, i, n - 1);
    }
  }

  /** When body i is reached, the bodies before it hold their final values for the sweep and the rest are untouched. */
  lemma SweepReaches(rule: (seq<Body>, nat) --> (Body, seq<OrbitReport>), bs: seq<Body>, i: nat)
    requires IsStepRule(rule) && i <= |bs| && MassesPositive(bs)
    ensures Sweep(rule, bs, i).0 == Sweep(rule, bs, |bs|).0[..i] + bs[i..]
  {
    var r := Sweep(rule, bs, |bs|).0;
    var s := Sweep(rule, bs, i).0;
    forall j | 0 <= j < i
      ensures s[j] == r[j]
    {
      SweepKeepsDone(rule, bs, j, i);
      SweepKeepsDone(rule, bs, j, |bs|);
    }
  }

  /**
   * Body i is stepped against the bodies before it as they are at the end of
   * the sweep and the bodies from i on as they were at its start.
   */
  lemma SweepOrderAt(rule: (seq<Body>, nat) --> (Body, seq<OrbitReport>), bs: seq<Body>, i: nat)
    requires IsStepRule(rule) && i < |bs| && MassesPositive(bs)
    ensures var r := Sweep(rule, bs, |bs|).0;
      && (r[..i] + bs[i..])[i].mass != 0.0
      && r[i] == rule(r[..i] + bs[i..], i).0
  {
    SweepReaches(rule, bs, i);
    SweepKeepsDone(rule, bs, i, |bs|);
  }

  /** Body i is stepped against the bodies before it as already updated and the rest as they were. */
  lemma TickOrderAt(num: Numerics, bs: seq<Body>, i: nat, dt: real, currentTime: real)
    requires i < |bs| && MassesPositive(bs)
    ensures var r := Tick(num, bs, dt, currentTime).0;
      && (r[..i] + bs[i..])[i].mass != 0.0
      && r[i] == StepBody(num, r[..i] + bs[i..], i, dt, currentTime).0
  {
    SweepOrderAt(StepRule(num, dt, currentTime), bs, i);
  }

  lemma EulerStep(num: Numerics, bs: seq<Body>, i: nat, dt: real, currentTime: real)
    requires i < |bs| && bs[i].mass != 0.0
    ensures var b := StepBody(num, bs, i, dt, currentTime).0;
      && b.velocity == Add(bs[i].velocity, Scale(Scale(NetForce(num, bs, i, |bs|), 1.0 / bs[i].mass), dt))
      && b.position == Add(bs[i].position, Scale(b.velocity, dt))
      && b.trail == PushTrail(bs[i].trail, b.position)
      && (i == 0 ==> b.tracker == bs[i].tracker)
      && (i > 0 ==> b.tracker == Detect(bs[i].tracker, Observe(num, bs[i].tracker, b.position), currentTime).0)
      && StepBody(num, bs, i, dt, currentTime).1 == DetectorReports(num, bs[i], i, b.position, currentTime)
  {
  }

  /** A body update computed field by field, as the loop in `updatePhysics` does, is `StepBody`. */
  lemma StepBodyMatches(num: Numerics, bs: seq<Body>, i: nat, dt: real, currentTime: real,
                        velocity: Vec3, position: Vec3, trail: seq<Vec3>, tracker: Tracker, events: seq<OrbitEvent>)
    requires i < |bs| && bs[i].mass != 0.0
    requires velocity == Add(bs[i].velocity, Scale(Scale(NetForce(num, bs, i, |bs|), 1.0 / bs[i].mass), dt))
    requires position == Add(bs[i].position, Scale(velocity, dt))
    requires trail == PushTrail(bs[i].trail, position)
    requires i > 0 ==> (tracker, events) == Detect(bs[i].tracker, Observe(num, bs[i].tracker, position), currentTime)
    requires i == 0 ==> tracker == bs[i].tracker && events == []
    ensures StepBody(num, bs, i, dt, currentTime) == (Body(bs[i].mass, position, velocity, trail, tracker), Reports(i, events))
  {
  }

  /**
   * One iteration of the loop in `updatePhysics`: the force on body i from
   * all the others, the acceleration, velocity, position and trail updates,
   * and for every body but the central one a detector step.
   */
  method UpdateBody(num: Numerics, bs: seq<Body>, i: nat, dt: real, currentTime: real) returns (body: Body, events: seq<OrbitEvent>)
    requires i < |bs| && bs[i].mass != 0.0
    ensures (body, Reports(i, events)) == StepBody(num, bs, i, dt, currentTime)
  {
    var planet := bs[i];
    var force := AccumulateForce(num, bs, i);
    var acceleration := Scale(force, 1.0 / planet.mass);
    var velocity := Add(planet.velocity, Scale(acceleration, dt));
    var position := Add(planet.position, Scale(velocity, dt));
    var trail := planet.trail + [position];
    if |trail| > TrailCapacity {
      trail := trail[1..];
    }
    var tracker := planet.tracker;
    events := [];
    if i > 0 {
      tracker, events := CheckOrbitCompletion(tracker, Observe(num, tracker, position), currentTime);
    }
    assert trail == PushTrail(planet.trail, position);
    StepBodyMatches(num, bs, i, dt, currentTime, velocity, position, trail, tracker, events);
    body := Body(planet.mass, position, velocity, trail, tracker);
  }

  /**
   * The body loop of `updatePhysics`: every body in index order takes its
   * step, and the updated body is written back before the next one is
   * reached.
   */
  method TickBodies(num: Numerics, bs: seq<Body>, dt: real, currentTime: real) returns (next: seq<Body>, reports: seq<OrbitReport>)
    requires MassesPositive(bs)
    ensures (next, reports) == Tick(num, bs, dt, currentTime)
  {
    ghost var rule := StepRule(num, dt, currentTime);
    next, reports := bs, [];
    var i := 0;
    while i < |next|
      invariant i <= |next| == |bs|
      invariant (next, reports) == Sweep(rule, bs, i)
    {
      var body, events := UpdateBody(num, next, i, dt, currentTime);
      SweepExtends(rule, bs, i, next, reports, body, Reports(i, events));
      next := next[i := body];
      reports := reports + Reports(i, events);
      i := i + 1;
    }
  }

  /** Body i's part of a whole tick; see `SequentialTick`. */
  lemma TickAt(num: Numerics, bs: seq<Body>, i: nat, dt: real, currentTime: real)
    requires i < |bs| && MassesPositive(bs)
    ensures var r := Tick(num, bs, dt, currentTime).0;
      var seen := r[..i] + bs[i..];
      && r[i].mass == bs[i].mass
      && r[i].velocity == Add(bs[i].velocity, Scale(Scale(NetForce(num, seen, i, |bs|), 1.0 / bs[i].mass), dt))
      && r[i].position == Add(bs[i].position, Scale(r[i].velocity, dt))
      && r[i].trail == PushTrail(bs[i].trail, r[i].position)
      && (i == 0 ==> r[i].tracker == bs[i].tracker)
      && (i > 0 ==> r[i].tracker == Detect(bs[i].tracker, Observe(num, bs[i].tracker, r[i].position), currentTime).0)
  {
    var r := Tick(num, bs, dt, currentTime).0;
    var seen := r[..i] + bs[i..];
    assert |seen| == |bs| && seen[i] == bs[i];
    TickOrderAt(num, bs, i, dt, currentTime);
    EulerStep(num, seen, i, dt, currentTime);
  }

  /**
   * A whole tick. Body i's new velocity is its old velocity plus the
   * acceleration from the force of the bodies as they stand when i is
   * reached (bodies before i already moved, bodies after i not yet), times
   * dt; its new position advances by the new velocity times dt; its trail
   * gains the new position; its mass never changes; a non-central body's
   * detector takes one step at the new position with the clock from before
   * the tick; and the central body's detector is left alone.
   */
  lemma SequentialTick(num: Numerics, bs: seq<Body>, dt: real, currentTime: real)
    requires MassesPositive(bs)
    ensures var r := Tick(num, bs, dt, currentTime).0;
      && |r| == |bs|
      && (forall i :: 0 <= i < |bs| ==>
            var seen := r[..i] + bs[i..];
            && r[i].mass == bs[i].mass
            && r[i].velocity == Add(bs[i].velocity, Scale(Scale(NetForce(num, seen, i, |bs|), 1.0 / bs[i].mass), dt))
            && r[i].position == Add(bs[i].position, Scale(r[i].velocity, dt))
            && r[i].trail == PushTrail(bs[i].trail, r[i].position)
            && (i > 0 ==> r[i].tracker == Detect(bs[i].tracker, Observe(num, bs[i].tracker, r[i].position), currentTime).0))
      && (|bs| > 0 ==> r[0].tracker == bs[0].tracker)
  {
    forall i | 0 <= i < |bs|
      ensures var r := Tick(num, bs, dt, currentTime).0;
        var seen := r[..i] + bs[i..];
        && r[i].mass == bs[i].mass
        && r[i].velocity == Add(bs[i].velocity, Scale(Scale(NetForce(num, seen, i, |bs|), 1.0 / bs[i].mass), dt))
        && r[i].position == Add(bs[i].position, Scale(r[i].velocity, dt))
        && r[i].trail == PushTrail(bs[i].trail, r[i].position)
        && (i > 0 ==> r[i].tracker == Detect(bs[i].tracker, Observe(num, bs[i].tracker, r[i].position), currentTime).0)
    {
      TickAt(num, bs, i, dt, currentTime);
    }
    if |bs| > 0 {
      TickAt(num, bs, 0, dt, currentTime);
    }
  }

  /** After a tick every trail still holds at most 500 samples and ends with the body's new position. */
  lemma TickKeepsTrailsBounded(num: Numerics, bs: seq<Body>, dt: real, currentTime: real)
    requires MassesPositive(bs)
    requires forall j :: 0 <= j < |bs| ==> |bs[j].trail| <= TrailCapacity
    ensures var r := Tick(num, bs, dt, currentTime).0;
      forall j :: 0 <= j < |r| ==>
        && 0 < |r[j].trail| <= TrailCapacity
        && r[j].trail[|r[j].trail| - 1] == r[j].position
        && (|bs[j].trail| == TrailCapacity ==> r[j].trail == bs[j].trail[1..] + [r[j].position])
  {
    SequentialTick(num, bs, dt, currentTime);
  }

  /**
   * The reports of a tick as the detectors make them: for each body below n
   * in index order, what its detector reports at its new position in `r`.
   */
  function TickReports(num: Numerics, bs: seq<Body>, r: seq<Body>, currentTime: real, n: nat): (rs: seq<OrbitReport>)
    requires n <= |bs| == |r|
    ensures forall k :: 0 <= k < |rs| ==> 0 < rs[k].planet < n
  {
    if n == 0 then []
    else TickReports(num, bs, r, currentTime, n - 1) + DetectorReports(num, bs[n - 1], n - 1, r[n - 1].position, currentTime)
  }

  /** The reports of the first n steps of a sweep whose bodies end as `r`, in index order. */
  ghost function SweepTrace(rule: (seq<Body>, nat) --> (Body, seq<OrbitReport>), bs: seq<Body>, r: seq<Body>, n: nat): seq<OrbitReport>
    requires IsStepRule(rule) && n <= |bs| == |r| && MassesPositive(bs)
  {
    if n == 0 then []
    else
      var seen := r[..n - 1] + bs[n - 1..];
      assert seen[n - 1] == bs[n - 1];
      SweepTrace(rule, bs, r, n - 1) + rule(seen, n - 1).1
  }

  /** Step i of a sweep appends the reports of the rule applied to body i as it is reached. */
  lemma SweepStepReports(rule: (seq<Body>, nat) --> (Body, seq<OrbitReport>), bs: seq<Body>, i: nat)
    requires IsStepRule(rule) && i < |bs| && MassesPositive(bs)
    ensures var r := Sweep(rule, bs, |bs|).0;
      && (r[..i] + bs[i..])[i].mass != 0.0
      && Sweep(rule, bs, i + 1).1 == Sweep(rule, bs, i).1 + rule(r[..i] + bs[i..], i).1
  {
    SweepReaches(rule, bs, i);
  }

  /** A sweep's reports are each step's reports in index order. */
  lemma {:induction false} SweepReportsInOrder(rule: (seq<Body>, nat) --> (Body, seq<OrbitReport>), bs: seq<Body>, n: nat)
    requires IsStepRule(rule) && n <= |bs| && MassesPositive(bs)
    ensures Sweep(rule, bs, n).1 == SweepTrace(rule, bs, Sweep(rule, bs, |bs|).0, n)
    decreases n
  {
    if n > 0 {
      SweepReportsInOrder(rule, bs, n - 1);
      SweepStepReports(rule, bs, n - 1);
    }
  }

  /** Body k's step within a tick reports what its detector reports at its new position. */
  lemma TickStepReports(num: Numerics, bs: seq<Body>, dt: real, currentTime: real, k: nat)
    requires k < |bs| && MassesPositive(bs)
    ensures var r := Tick(num, bs, dt, currentTime).0;
      var seen := r[..k] + bs[k..];
      && seen[k].mass != 0.0
      && StepRule(num, dt, currentTime)(seen, k).1 == DetectorReports(num, bs[k], k, r[k].position, currentTime)
  {
    var r := Tick(num, bs, dt, currentTime).0;
    var seen := r[..k] + bs[k..];
    assert |seen| == |bs| && seen[k] == bs[k];
    TickOrderAt(num, bs, k, dt, currentTime);
    EulerStep(num, seen, k, dt, currentTime);
  }

  /** Every step of a tick reports what that body's detector reports. */
  lemma TickStepsReport(num: Numerics, bs: seq<Body>, dt: real, currentTime: real)
    requires MassesPositive(bs)
    ensures var r := Tick(num, bs, dt, currentTime).0;
      forall k :: 0 <= k < |bs| ==>
        && (r[..k] + bs[k..])[k].mass != 0.0
        && StepRule(num, dt, currentTime)(r[..k] + bs[k..], k).1 == DetectorReports(num, bs[k], k, r[k].position, currentTime)
  {
    forall k | 0 <= k < |bs|
      ensures var r := Tick(num, bs, dt, currentTime).0;
        && (r[..k] + bs[k..])[k].mass != 0.0
        && StepRule(num, dt, currentTime)(r[..k] + bs[k..], k).1 == DetectorReports(num, bs[k], k, r[k].position, currentTime)
    {
      TickStepReports(num, bs, dt, currentTime, k);
    }
  }

  /** A sweep whose every step reports what the detectors report has `TickReports` as its trace. */
  lemma {:induction false} TraceIsDetectorReports(num: Numerics, rule: (seq<Body>, nat) --> (Body, seq<OrbitReport>),
                                                  bs: seq<Body>, r: seq<Body>, currentTime: real, n: nat)
    requires IsStepRule(rule) && n <= |bs| == |r| && MassesPositive(bs)
    requires forall k :: 0 <= k < n ==>
      rule(r[..k] + bs[k..], k).1 == DetectorReports(num, bs[k], k, r[k].position, currentTime)
    ensures SweepTrace(rule, bs, r, n) == TickReports(num, bs, r, currentTime, n)
    decreases n
  {
    if n > 0 {
      TraceIsDetectorReports(num, rule, bs, r, currentTime, n - 1);
    }
  }

  /**
   * What a tick reports: every non-central body's detector events, tagged
   * with the body's index, in index order.
   */
  lemma TickReportsInOrder(num: Numerics, bs: seq<Body>, dt: real, currentTime: real)
    requires MassesPositive(bs)
    ensures var (r, reports) := Tick(num, bs, dt, currentTime);
      reports == TickReports(num, bs, r, currentTime, |bs|)
  {
    var rule := StepRule(num, dt, currentTime);
    var r := Tick(num, bs, dt, currentTime).0;
    SweepReportsInOrder(rule, bs, |bs|);
    TickStepsReport(num, bs, dt, currentTime);
    TraceIsDetectorReports(num, rule, bs, r, currentTime, |bs|);
  }

  /** Every trail holds at most 500 samples and every detector keeps its invariant. */
  ghost predicate BodiesWellFormed(bs: seq<Body>) {
    forall j :: 0 <= j < |bs| ==> |bs[j].trail| <= TrailCapacity && Inv(bs[j].tracker)
  }

  /** A tick keeps every trail bounded and every detector consistent. */
  lemma TickKeepsBodiesWellFormed(num: Numerics, bs: seq<Body>, dt: real, currentTime: real)
    requires MassesPositive(bs) && BodiesWellFormed(bs)
    ensures BodiesWellFormed(Tick(num, bs, dt, currentTime).0)
  {
    var r := Tick(num, bs, dt, currentTime).0;
    TickKeepsTrailsBounded(num, bs, dt, currentTime);
    forall j | 0 <= j < |r|
      ensures Inv(r[j].tracker)
    {
      TickAt(num, bs, j, dt, currentTime);
    }
  }
}
