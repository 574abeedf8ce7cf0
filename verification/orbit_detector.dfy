/**
 * The per-body revolution detector. Each tick it adds the signed angle the
 * body swept around the centre to `angleAccumulated`; when that reaches 2*pi a
 * revolution becomes pending, the closest return to the starting point is
 * tracked while the body stays within 10% of the initial radius of it, and
 * the revolution is confirmed once the body is more than twice that far away
 * again (a hysteresis band), carrying the surplus angle into the next cycle.
 */
module OrbitDetector {
  import opened Wrappers
  import opened Vectors

  /** `Math.PI`. */
  const Pi: real := 3.141592653589793
  const TwoPi: real := 2.0 * Pi
  /** Frames per simulated second assumed when recording detection frames. */
  const FramesPerSecond: real := 60.0
  /** The entry threshold, as a fraction of the initial radius. */
  const ThresholdFraction: real := 0.1
  /** Every tracker measures relative to the origin, where the central body starts. */
  const Center: Vec3 := Zero

  /** What the detector reports: a tentative or a confirmed revolution count and its time. */
  datatype OrbitEvent =
    | Pending(count: nat, simTime: real)
    | Confirmed(count: nat, simTime: real)

  /**
   * The detector state a body carries. `lastDetectionDistance == None` stands
   * for `Infinity`.
   */
  datatype Tracker = Tracker(
    prevRelPos: Vec3,
    angularMomentum: Vec3,
    initialPosition: Vec3,
    initialRadius: real,
    angleAccumulated: real,
    orbitCount: nat,
    pendingOrbitCount: nat,
    lastDetectionDistance: Option<real>,
    lastDetectionFrame: int)

  /**
   * What one tick measures of a body: its position relative to the centre,
   * the signed angle swept since the previous tick and its distance from the
   * starting point.
   */
  datatype Observation = Observation(rel: Vec3, delta: real, dist0: real)

  /** At most one revolution is pending, and it is the one after the last confirmed. */
  predicate Inv(t: Tracker) {
    t.pendingOrbitCount == 0 || t.pendingOrbitCount == t.orbitCount + 1
  }

  /** A tracker just created or reset: nothing swept, counted or pending. */
  predicate IsCleared(t: Tracker) {
    t.angleAccumulated == 0.0 && t.orbitCount == 0 && t.pendingOrbitCount == 0
    && t.lastDetectionDistance == None && t.lastDetectionFrame == 0
    && t.prevRelPos == t.initialPosition
  }

  /** `d < bound`, where `None` is infinity. */
  predicate Below(d: real, bound: Option<real>) {
    bound.None? || d < bound.value
  }

  /** `a <= b`, where `None` is infinity. */
  predicate AtMost(a: Option<real>, b: Option<real>) {
    b.None? || (a.Some? && a.value <= b.value)
  }

  /** `Math.floor(currentTime * 60)`: the frame number a clock value falls in. */
  function Frame(currentTime: real): (f: int)
    ensures f as real <= currentTime * FramesPerSecond < f as real + 1.0
  {
    (currentTime * FramesPerSecond).Floor
  }

  /** The entry threshold: a tenth of the initial radius, never negative when the radius is not. */
  function Threshold(t: Tracker): (th: real)
    ensures th * 10.0 == t.initialRadius
    ensures t.initialRadius >= 0.0 ==> 0.0 <= th <= t.initialRadius
  {
    t.initialRadius * ThresholdFraction
  }

  /** A fresh tracker for a body at `position` moving with `velocity`. */
  function NewTracker(num: Numerics, position: Vec3, velocity: Vec3): (t: Tracker)
    ensures IsCleared(t) && Inv(t)
    ensures t.initialPosition == Sub(position, Center)
    ensures t.initialRadius == num.length(t.initialPosition)
    ensures t.angularMomentum == Normalize(num.length, Cross(t.initialPosition, velocity))
  {
    var rel0 := Sub(position, Center);
    Tracker(rel0, Normalize(num.length, Cross(rel0, velocity)), rel0, num.length(rel0),
            0.0, 0, 0, None, 0)
  }

  /**
   * The geometry of one tick: relative position, distance to the starting
   * point, and the swept angle `atan2(|prev x rel|, prev . rel)`, negated when
   * the rotation is against the stored angular-momentum direction.
   */
  function Observe(num: Numerics, t: Tracker, position: Vec3): (o: Observation)
    ensures o.rel == Sub(position, Center)
    ensures o.dist0 == num.length(Sub(o.rel, t.initialPosition))
    ensures var unsigned := num.atan2(num.length(Cross(t.prevRelPos, o.rel)), Dot(t.prevRelPos, o.rel));
      o.delta == (if Dot(Cross(t.prevRelPos, o.rel), t.angularMomentum) < 0.0 then -unsigned else unsigned)
  {
    var rel := Sub(position, Center);
    var dist0 := num.length(Sub(rel, t.initialPosition));
    var cross := Cross(t.prevRelPos, rel);
    var dot := Dot(t.prevRelPos, rel);
    var delta := num.atan2(num.length(cross), dot);
    Observation(rel, if Dot(cross, t.angularMomentum) < 0.0 then -delta else delta, dist0)
  }

  /** The distance to the starting point is never negative and is zero exactly at the start. */
  lemma ObservedDistance(num: Numerics, t: Tracker, position: Vec3)
    requires IsLength(num.length)
    ensures Observe(num, t, position).dist0 >= 0.0
    ensures Observe(num, t, position).dist0 == 0.0 <==> Sub(position, Center) == t.initialPosition
  {
    var rel := Sub(position, Center);
    var gap := Sub(rel, t.initialPosition);
    assert Observe(num, t, position).dist0 == num.length(gap);
    LengthZeroIff(num.length, gap);
    assert gap == Zero <==> rel == t.initialPosition;
  }

  /** Phase 1: the accumulated angle has reached a full turn and nothing is pending. */
  function Enter(t: Tracker, currentTime: real): (r: (Tracker, seq<OrbitEvent>))
    ensures r.0.orbitCount == t.orbitCount && r.0.angleAccumulated == t.angleAccumulated
    ensures r.0.initialRadius == t.initialRadius
    ensures r.0.pendingOrbitCount != t.pendingOrbitCount
        <==> t.angleAccumulated >= TwoPi && t.pendingOrbitCount == 0
    ensures r.0.pendingOrbitCount != t.pendingOrbitCount ==>
      && r.0.pendingOrbitCount == t.orbitCount + 1
      && r.0.lastDetectionDistance == None
      && r.0.lastDetectionFrame == Frame(currentTime)
      && r.1 == [Pending(t.orbitCount + 1, currentTime)]
    ensures r.0.pendingOrbitCount == t.pendingOrbitCount ==> r == (t, [])
    ensures Inv(r.0) <== Inv(t)
  {
    if t.angleAccumulated >= TwoPi && t.pendingOrbitCount == 0 then
      var entered := t.(pendingOrbitCount := t.orbitCount + 1,
                        lastDetectionDistance := None,
                        lastDetectionFrame := Frame(currentTime));
      (entered, [Pending(entered.pendingOrbitCount, currentTime)])
    else
      (t, [])
  }

  /** Phase 2: while pending, remember the closest return inside the threshold. */
  function Refine(t: Tracker, dist0: real, currentTime: real): (r: (Tracker, seq<OrbitEvent>))
    ensures r.0 == t.(lastDetectionDistance := r.0.lastDetectionDistance,
                      lastDetectionFrame := r.0.lastDetectionFrame)
    ensures AtMost(r.0.lastDetectionDistance, t.lastDetectionDistance)
    ensures r.0 != t <==>
      t.pendingOrbitCount > 0 && dist0 < Threshold(t) && Below(dist0, t.lastDetectionDistance)
    ensures r.0 != t ==>
      && r.0.lastDetectionDistance == Some(dist0)
      && r.0.lastDetectionFrame == Frame(currentTime)
      && r.1 == [Pending(t.pendingOrbitCount, Frame(currentTime) as real / FramesPerSecond)]
    ensures r.0 == t ==> r.1 == []
  {
    if t.pendingOrbitCount > 0 && dist0 < Threshold(t) && Below(dist0, t.lastDetectionDistance) then
      var closer := t.(lastDetectionDistance := Some(dist0), lastDetectionFrame := Frame(currentTime));
      (closer, [Pending(closer.pendingOrbitCount, closer.lastDetectionFrame as real / FramesPerSecond)])
    else
      (t, [])
  }

  /** Phase 3: while pending, confirm once the body is beyond twice the threshold. */
  function Confirm(t: Tracker, dist0: real): (r: (Tracker, seq<OrbitEvent>))
    ensures r.1 != [] <==> t.pendingOrbitCount > 0 && dist0 > Threshold(t) * 2.0
    ensures r.1 != [] ==>
      && r.0 == t.(orbitCount := t.pendingOrbitCount, pendingOrbitCount := 0,
                   angleAccumulated := t.angleAccumulated - TwoPi)
      && r.1 == [Confirmed(t.pendingOrbitCount, t.lastDetectionFrame as real / FramesPerSecond)]
    ensures r.1 == [] ==> r.0 == t
    ensures Inv(t) ==> Inv(r.0) && (r.1 != [] ==> r.0.orbitCount == t.orbitCount + 1)
  {
    if t.pendingOrbitCount > 0 && dist0 > Threshold(t) * 2.0 then
      var confirmed := t.(orbitCount := t.pendingOrbitCount, pendingOrbitCount := 0,
                          angleAccumulated := t.angleAccumulated - TwoPi);
      (confirmed, [Confirmed(confirmed.orbitCount, t.lastDetectionFrame as real / FramesPerSecond)])
    else
      (t, [])
  }

  function ConfirmedCount(events: seq<OrbitEvent>): nat {
    if events == [] then 0
    else (if events[0].Confirmed? then 1 else 0) + ConfirmedCount(events[1..])
  }

  lemma {:induction false} ConfirmedCountAppend(a: seq<OrbitEvent>, b: seq<OrbitEvent>)
    ensures ConfirmedCount(a + b) == ConfirmedCount(a) + ConfirmedCount(b)
  {
    if a == [] {
      assert a + b == b;
    } else {
      assert (a + b)[0] == a[0];
      assert (a + b)[1..] == a[1..] + b;
      ConfirmedCountAppend(a[1..], b);
    }
  }

  /**
   * A step confirms a revolution exactly when, after the angle is added, a
   * revolution is (or becomes) pending and the body is beyond twice the
   * threshold.
   */
  predicate Confirms(t: Tracker, o: Observation) {
    (t.pendingOrbitCount > 0 || t.angleAccumulated + o.delta >= TwoPi)
    && o.dist0 > Threshold(t) * 2.0
  }

  /** One detector step: accumulate the angle, then the three phases in order. */
  function Detect(t: Tracker, o: Observation, currentTime: real): (r: (Tracker, seq<OrbitEvent>))
    ensures r.0.prevRelPos == o.rel
    ensures r.0.initialPosition == t.initialPosition && r.0.initialRadius == t.initialRadius
    ensures r.0.angularMomentum == t.angularMomentum
    ensures ConfirmedCount(r.1) == if Confirms(t, o) then 1 else 0
    ensures r.0.angleAccumulated == t.angleAccumulated + o.delta - (if Confirms(t, o) then TwoPi else 0.0)
    ensures !Confirms(t, o) ==> r.0.orbitCount == t.orbitCount
    ensures Inv(t) ==> Inv(r.0) && r.0.orbitCount == t.orbitCount + ConfirmedCount(r.1)
    ensures t.initialRadius >= 0.0 ==> |r.1| <= 2
  {
    var swept := t.(angleAccumulated := t.angleAccumulated + o.delta, prevRelPos := o.rel);
    var entered := Enter(swept, currentTime);
    var refined := Refine(entered.0, o.dist0, currentTime);
    var confirmed := Confirm(refined.0, o.dist0);
    ConfirmedCountAppend(entered.1, refined.1);
    ConfirmedCountAppend(entered.1 + refined.1, confirmed.1);
    (confirmed.0, entered.1 + refined.1 + confirmed.1)
  }

  /** `checkOrbitCompletion` after its vector arithmetic: three consecutive, independent checks. */
  method CheckOrbitCompletion(t: Tracker, o: Observation, currentTime: real)
    returns (next: Tracker, events: seq<OrbitEvent>)
    ensures (next, events) == Detect(t, o, currentTime)
  {
    next := t.(angleAccumulated := t.angleAccumulated + o.delta, prevRelPos := o.rel);
    events := [];
    ghost var entered := Enter(next, currentTime);
    var threshold := next.initialRadius * ThresholdFraction;
    var currentFrame := Frame(currentTime);
    if next.angleAccumulated >= TwoPi && next.pendingOrbitCount == 0 {
      next := next.(pendingOrbitCount := next.orbitCount + 1,
                    lastDetectionDistance := None,
                    lastDetectionFrame := currentFrame);
      events := events + [Pending(next.pendingOrbitCount, currentTime)];
      assert events == [Pending(next.pendingOrbitCount, currentTime)];
    }
    assert next == entered.0;
    assert events == entered.1;
    ghost var refined := Refine(next, o.dist0, currentTime);
    if next.pendingOrbitCount > 0 && o.dist0 < threshold {
      if Below(o.dist0, next.lastDetectionDistance) {
        next := next.(lastDetectionDistance := Some(o.dist0), lastDetectionFrame := currentFrame);
        events := events + [Pending(next.pendingOrbitCount, next.lastDetectionFrame as real / FramesPerSecond)];
      }
    }
    assert next == refined.0 && events == entered.1 + refined.1;
    ghost var confirmed := Confirm(next, o.dist0);
    if next.pendingOrbitCount > 0 && o.dist0 > threshold * 2.0 {
      var detectionTime := next.lastDetectionFrame as real / FramesPerSecond;
      next := next.(orbitCount := next.pendingOrbitCount, pendingOrbitCount := 0,
                    angleAccumulated := next.angleAccumulated - TwoPi);
      events := events + [Confirmed(next.orbitCount, detectionTime)];
    }
    assert next == confirmed.0 && events == entered.1 + refined.1 + confirmed.1;
  }

  /**
   * Refining and confirming never happen in the same call: a confirmation
   * needs the body beyond twice the threshold, a refinement needs it inside
   * the threshold.
   */
  lemma RefineAndConfirmExclusive(t: Tracker, dist0: real, currentTime: real)
    requires t.initialRadius >= 0.0
    ensures Confirm(Refine(t, dist0, currentTime).0, dist0).1 != [] ==> Refine(t, dist0, currentTime) == (t, [])
  {
    var refined := Refine(t, dist0, currentTime);
    if Confirm(refined.0, dist0).1 != [] {
      assert dist0 > Threshold(t) * 2.0 >= Threshold(t);
    }
  }

  /**
   * The events of a confirming step: the Pending report if this same call
   * opened the revolution, then the Confirmed report, stamped with the frame
   * of the closest approach recorded before this call, or with the current
   * frame when the revolution was opened in this call.
   */
  lemma ConfirmingStep(t: Tracker, o: Observation, currentTime: real)
    requires Inv(t) && t.initialRadius >= 0.0 && Confirms(t, o)
    ensures var (n, events) := Detect(t, o, currentTime);
      && n.orbitCount == t.orbitCount + 1 && n.pendingOrbitCount == 0
      && events == (if t.pendingOrbitCount > 0 then [] else [Pending(t.orbitCount + 1, currentTime)])
                   + [Confirmed(t.orbitCount + 1,
                                (if t.pendingOrbitCount > 0 then t.lastDetectionFrame else Frame(currentTime)) as real / FramesPerSecond)]
  {
    var swept := t.(angleAccumulated := t.angleAccumulated + o.delta, prevRelPos := o.rel);
    var entered := Enter(swept, currentTime);
    RefineAndConfirmExclusive(entered.0, o.dist0, currentTime);
  }

  /**
   * When the angle crosses a full turn on a tick where the body is already
   * beyond twice the threshold, one call both opens and confirms the
   * revolution, reporting the current frame as its time.
   */
  lemma EnterAndConfirmInOneCall(t: Tracker, o: Observation, currentTime: real)
    requires t.initialRadius >= 0.0
    requires t.pendingOrbitCount == 0 && t.angleAccumulated + o.delta >= TwoPi
    requires o.dist0 > Threshold(t) * 2.0
    ensures var (n, events) := Detect(t, o, currentTime);
      && n.orbitCount == t.orbitCount + 1 && n.pendingOrbitCount == 0
      && n.angleAccumulated == t.angleAccumulated + o.delta - TwoPi
      && n.lastDetectionDistance == None && n.lastDetectionFrame == Frame(currentTime)
      && events == [Pending(t.orbitCount + 1, currentTime),
                    Confirmed(t.orbitCount + 1, Frame(currentTime) as real / FramesPerSecond)]
  {
  }

  /** A revolution is opened only from the idle state, and once open it is never replaced by another. */
  lemma PendingOpensOnlyWhenIdle(t: Tracker, o: Observation, currentTime: real)
    requires Inv(t)
    ensures var (n, events) := Detect(t, o, currentTime);
      && (t.pendingOrbitCount > 0 ==> n.pendingOrbitCount == t.pendingOrbitCount || n.pendingOrbitCount == 0)
      && (t.pendingOrbitCount == 0 && t.angleAccumulated + o.delta < TwoPi ==> events == [] && n.pendingOrbitCount == 0)
      && (t.pendingOrbitCount == 0 && t.angleAccumulated + o.delta >= TwoPi ==>
            events != [] && events[0] == Pending(t.orbitCount + 1, currentTime)
            && n.lastDetectionFrame == Frame(currentTime))
  {
  }

  /** A sample of what one tick feeds the detector. */
  datatype Sample = Sample(obs: Observation, currentTime: real)

  /** The detector run over consecutive ticks; the events of all ticks in order. */
  function Run(t: Tracker, samples: seq<Sample>): (r: (Tracker, seq<OrbitEvent>))
    decreases |samples|
  {
    if samples == [] then (t, [])
    else
      var step := Detect(t, samples[0].obs, samples[0].currentTime);
      var rest := Run(step.0, samples[1..]);
      (rest.0, step.1 + rest.1)
  }

  /**
   * Over any run: the pending count stays 0 or orbitCount + 1, orbitCount never
   * decreases, and it grows by exactly one per confirmation event.
   */
  lemma {:induction false} RunCountsConfirmations(t: Tracker, samples: seq<Sample>)
    requires Inv(t)
    ensures Inv(Run(t, samples).0)
    ensures Run(t, samples).0.orbitCount == t.orbitCount + ConfirmedCount(Run(t, samples).1)
    ensures Run(t, samples).0.orbitCount >= t.orbitCount
    ensures Run(t, samples).0.initialRadius == t.initialRadius
    decreases |samples|
  {
    if samples != [] {
      var step := Detect(t, samples[0].obs, samples[0].currentTime);
      RunCountsConfirmations(step.0, samples[1..]);
      ConfirmedCountAppend(step.1, Run(step.0, samples[1..]).1);
    }
  }

  /**
   * Hysteresis: as long as the body never gets beyond twice the threshold no
   * revolution is confirmed, however often it crosses the threshold itself;
   * an open revolution stays open and its closest distance never grows.
   */
  lemma {:induction false} NoConfirmationInsideBand(t: Tracker, samples: seq<Sample>)
    requires forall k :: 0 <= k < |samples| ==> samples[k].obs.dist0 <= Threshold(t) * 2.0
    ensures Run(t, samples).0.orbitCount == t.orbitCount
    ensures ConfirmedCount(Run(t, samples).1) == 0
    ensures Run(t, samples).0.initialRadius == t.initialRadius
    ensures t.pendingOrbitCount > 0 ==>
      && Run(t, samples).0.pendingOrbitCount == t.pendingOrbitCount
      && AtMost(Run(t, samples).0.lastDetectionDistance, t.lastDetectionDistance)
    decreases |samples|
  {
    if samples != [] {
      var step := Detect(t, samples[0].obs, samples[0].currentTime);
      assert !Confirms(t, samples[0].obs);
      assert t.pendingOrbitCount > 0 ==>
        step.0.pendingOrbitCount == t.pendingOrbitCount
        && AtMost(step.0.lastDetectionDistance, t.lastDetectionDistance);
      NoConfirmationInsideBand(step.0, samples[1..]);
      ConfirmedCountAppend(step.1, Run(step.0, samples[1..]).1);
    }
  }
}
