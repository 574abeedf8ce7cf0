# Orbit simulator core in Dafny

This project models the simulation core of a browser solar-system simulator.
The central body (the Sun) and its planets are integrated under Newtonian
gravity in scaled units: 1 unit is 1e6 km and 1 mass unit is 1e24 kg. Each
tick, every body in index order does four things:

- it feels the pull of every other body as that body stands at that moment;
- it takes a semi-implicit Euler step (velocity first, then position with the new velocity);
- it records its position in a trail of at most 500 samples;
- unless it is the central body, it feeds a revolution detector.

The detector sums the signed angle swept around the origin. When the sum
reaches 2π, a revolution becomes *pending*. While pending, the detector
tracks the closest return to the starting point within 10% of the initial
radius. The revolution is *confirmed* once the body is more than twice that
far away again.

The configuration list can be extended (`addPlanet`) or shortened
(`removePlanet`, which refuses index 0). The bodies can be rebuilt
(`createPlanets`) or put back to their start (`resetSimulation`). The
simulation can be paused and resumed.

Modules:

- `Vectors` (vectors.dfy): 3-vectors over the reals. The floating-point primitives `length` and `atan2` are inputs (`Numerics`).
- `Units` (units.dfy): the scale factors, the rescaled gravitational constant and `calcOrbitalVelocity`.
- `Bodies` (bodies.dfy): configurations, the built-in planet data, and the bodies built from configurations.
- `OrbitDetector` (orbit_detector.dfy): the tracker state and `checkOrbitCompletion`. The pure `Detect` is its specification; the method `CheckOrbitCompletion` follows the code's three consecutive checks.
- `Integrator` (integrator.dfy): forces, the per-body step and the tick.
  - `Sweep` is the reference definition of "update bodies 0..n-1 one after another in place", for any per-body rule.
  - `Tick` is that sweep with the rule `updatePhysics` uses.
  - The method `TickBodies` is the loop itself.
- `SolarSystem` (simulation.dfy): the class `Simulation`. It holds the global state (`configs`, `planets`, `time`, `isRunning`) and the operations the controls and the animation loop call.

Three behaviours of the code are easy to miss:

- **Force order.** Body i's force is computed in the same pass that moves bodies 0..i-1, so it reads their already-moved positions, not a snapshot taken at the start of the tick. `Integrator.SequentialTick` states this.
- **Removing index 0.** `removePlanet(0)` returns silently and changes nothing. Removing an index at or beyond the end also removes nothing, although the bodies are still rebuilt.
- **Negative indices.** A negative index counts from the end, as `splice` does. So an index equal to minus the number of configurations removes the central body. `SolarSystem.Splice` states all of these cases.

## Model

| member | source | states |
|---|---|---|
| Units.OrbitalVelocity | script.js:35-40 | the returned speed, times the distance scale, is sqrt(G_SI * M / r), the circular-orbit speed in km/s |
| Units.CircularOrbitSpeed | script.js:35-40 | for a true square root, the speed in km/s is non-negative and satisfies v² r = G_SI M |
| Units.ScaledGravityBalancesOrbit | script.js:15-40 | the rescaled G in simulation units balances the seeded speed: G * (M / 1e24) == v² * (r / 1e6) |
| Bodies.ScaledConfig | script.js:55-64 | mass is kg / 1e24, radius is max(km / 1e6, 0.5), the body sits on the x axis at distance / 1e6 and moves along y at the given speed |
| Bodies.CentralConfig | script.js:45-52 | the central body is at rest on the x axis at its own scaled distance, with mass kg / 1e24 |
| Bodies.PlanetConfig | script.js:55-64 | a planet is on the x axis at distance / 1e6 with velocity (0, v, 0), where v * 1e6 = sqrt(G_SI * M_sun / distance), and mass kg / 1e24 |
| Bodies.SystemConfigs | script.js:43-149 | the list is the central body followed by each planet in the data's order; all masses positive when the data's are |
| Bodies.InitialConfigs | script.js:20-149 | nine configurations: the Sun at rest at the origin with 1.9884e30 kg scaled, then Mercury to Neptune built by PlanetConfig; every mass positive |
| Bodies.PlanetDataPositive | script.js:23-30 | every planet's mass and distance in the built-in data is positive |
| Bodies.PlanetOnCircularOrbit | script.js:55-64 | a planet configured this way satisfies G * M == v² * r against the central configuration |
| Bodies.SystemOrbitsBalanced | script.js:43-149 | every planet of a system built from positive distances starts on a circular orbit around the central body |
| Bodies.InitialOrbitsBalanced | script.js:43-149 | each of the eight built-in planets starts on a circular orbit around the Sun as the integrator's gravity sees it |
| Bodies.NewBody | script.js:265-284 | a new body takes mass, position and velocity from its configuration, an empty trail and a cleared tracker whose start is the position and whose radius is its length |
| Bodies.BuildBodies | script.js:247-288 | one body per configuration, in order, each with an empty trail and a cleared tracker |
| OrbitDetector.NewTracker | script.js:274-284 | the tracker starts with angle 0, counts 0, no pending revolution, distance Infinity, frame 0, previous position = initial position = the position relative to the origin, radius = its length, and angular momentum = normalize(initial position × velocity) |
| OrbitDetector.Observe | script.js:493-502 | rel is the position relative to the origin; dist0 is the length of rel − initial position; delta is atan2(|prev × rel|, prev · rel), negated exactly when the turn opposes the stored angular momentum |
| OrbitDetector.ObservedDistance | script.js:493-494 | for a true length, dist0 is non-negative and zero exactly when the body is back at its initial relative position |
| OrbitDetector.Frame | script.js:507 | the frame is the integer f with f ≤ 60 t < f + 1, i.e. floor(60 t) |
| OrbitDetector.Threshold | script.js:495-496 | the threshold is a tenth of the initial radius (threshold × 10 = r0), and lies in [0, r0] when r0 ≥ 0 |
| OrbitDetector.Enter | script.js:506-514 | a revolution opens iff angle ≥ 2π and none is pending; it then sets pending = orbitCount + 1, distance Infinity, frame floor(60 t), and reports Pending(orbitCount + 1, t); otherwise nothing changes |
| OrbitDetector.Refine | script.js:516-527 | only the closest distance and its frame can change; they change iff pending, dist0 < threshold and dist0 < the previous closest; the closest distance never grows |
| OrbitDetector.Confirm | script.js:529-537 | confirms iff pending and dist0 > 2 * threshold: orbitCount := pending, pending := 0, angle -= 2π, report Confirmed at lastDetectionFrame / 60; keeps pending ∈ {0, orbitCount + 1} and raises the count by exactly one |
| OrbitDetector.Detect | script.js:491-538 | one step adds delta, records rel and confirms exactly when Confirms holds (then subtracting 2π); keeps the invariant, counts each confirmation once, reports at most two events for a non-negative radius and never changes the start, radius or angular momentum (that the closest-approach update and the confirmation never both fire is RefineAndConfirmExclusive) |
| OrbitDetector.CheckOrbitCompletion | script.js:491-538 | the three consecutive checks, run in place on the tracker, give exactly Detect's tracker and events |
| OrbitDetector.RefineAndConfirmExclusive | script.js:516-537 | for a non-negative radius, whenever the confirm check fires the closest-approach update did nothing: dist0 > 2 × threshold excludes dist0 < threshold |
| OrbitDetector.ConfirmingStep | script.js:491-538 | a confirming call raises the count by one, clears pending and reports, in order, Pending (only if none was open) then Confirmed at the stored frame / 60, with no closest-approach report |
| OrbitDetector.EnterAndConfirmInOneCall | script.js:506-537 | crossing 2π while already beyond twice the threshold opens and confirms in the same call, reporting the current frame |
| OrbitDetector.PendingOpensOnlyWhenIdle | script.js:506-514 | a revolution opens only from the idle state; an open one is kept or confirmed, never replaced |
| OrbitDetector.RunCountsConfirmations | script.js:506-537 | over any run, pending stays 0 or orbitCount + 1, orbitCount never decreases and grows by exactly the number of confirmations |
| OrbitDetector.NoConfirmationInsideBand | script.js:516-537 | while the body never gets beyond twice the threshold, nothing is confirmed, an open revolution stays open and its closest distance never grows |
| Integrator.EffectiveDt | script.js:432 | dt is the parsed value unless that is 0 or NaN, in which case it is 1; dt is never 0 |
| Integrator.PushTrail | script.js:463-465 | the new position becomes the last sample; the oldest sample is dropped only when the trail already held 500; the length stays ≤ 500 |
| Vectors.Normalize | script.js:450 | Vector3.normalize divides by the length, or leaves a zero-length vector as it is |
| Vectors.NormalizeScalesBack | script.js:450 | scaling the normalised vector back by its non-zero length gives the original vector |
| Integrator.PairForce | script.js:444-453 | the pull of `other` on `body` is zero when their distance is not positive (the pair is skipped) |
| Integrator.PairForceInverseSquare | script.js:444-453 | at positive distance d the pull is G m M / d³ times the separation vector: along the line towards `other`, of size G m M / d² |
| Integrator.CoincidentPairExertsNoForce | script.js:444-453 | bodies at the same position contribute zero force (the distance-0 pair is skipped) |
| Integrator.PairForceOpposite | script.js:444-453 | for a true length, the force a exerts on b is the negation of b's on a (Newton's third law at fixed positions) |
| Integrator.NoForceFromCoincidentBodies | script.js:439-454 | NetForce, the sum over j ≠ i: a body that all others sit on feels zero net force |
| Integrator.TwoBodyForcesOpposite | script.js:439-454 | NetForce in a two-body system: the forces on the two bodies are opposite, so they sum to zero |
| Integrator.AccumulateForce | script.js:439-454 | the inner loop's sum over j ≠ i, in index order, is NetForce |
| Integrator.StepBody | script.js:438-470 | a body's step keeps its mass, and only non-central bodies report events, tagged with their own index |
| Integrator.StepRule | script.js:438-470 | updatePhysics's per-body update is a valid step rule: defined for every body of non-zero mass, mass-preserving, reporting only about itself |
| Integrator.Sweep | script.js:438-471 | after bodies 0..n-1 are stepped in place, bodies n.. are untouched, every mass is kept, and all reports concern bodies 1..n-1 |
| Integrator.Tick | script.js:438-471 | a tick keeps the number of bodies and their masses, and reports only about non-central bodies |
| Integrator.SweepKeepsDone | script.js:438-471 | once body i has been stepped, later steps in the same tick leave it unchanged |
| Integrator.SweepReaches | script.js:438-471 | when body i is reached, bodies before it already hold their final values for the tick and bodies from i on are as they were |
| Integrator.SweepOrderAt | script.js:438-471 | body i's result is the rule applied to (final bodies before i) ++ (original bodies from i) |
| Integrator.TickOrderAt | script.js:438-471 | body i is stepped against the already-moved bodies 0..i-1 and the not-yet-moved bodies i.. |
| Integrator.EulerStep | script.js:457-470 | v' = v + (F / m) dt, then x' = x + v' dt with the new velocity, then the trail gains x'; a non-central body's tracker takes one Detect step at x' with the pre-tick clock and its events are reported under its index; the central body's tracker is untouched and it reports nothing |
| Integrator.UpdateBody | script.js:439-470 | one pass of the outer forEach body (force, acceleration, velocity, position, trail, detector for i > 0) computes exactly StepBody |
| Integrator.TickBodies | script.js:438-471 | the outer forEach, writing each body back in place, computes exactly Tick |
| Integrator.TickAt | script.js:438-471 | body i's mass, velocity, position, trail and tracker after a tick, in terms of the bodies it saw; for i > 0 the tracker is Detect of the old tracker at the new position with the pre-tick clock |
| Integrator.SequentialTick | script.js:438-471 | for every body, semi-implicit Euler with the force from the bodies as they stand when it is reached; mass unchanged; each non-central tracker takes one Detect step at the new position with the pre-tick clock; central tracker unchanged |
| Integrator.DetectorReports | script.js:467-470 | the reports of body i's step are tagged with i and come only from non-central bodies |
| Integrator.SweepReportsInOrder | script.js:438-471 | a sweep's reports are each body's step reports, concatenated in index order |
| Integrator.TickStepReports | script.js:438-471 | body k's step within a tick reports exactly its detector's events at its new position |
| Integrator.TickReportsInOrder | script.js:438-471 | a tick's reports are, in index order, each non-central body's Detect events at its new position with the pre-tick clock, tagged with its index |
| Integrator.TickKeepsBodiesWellFormed | script.js:463-470 | a tick keeps every trail within 500 samples and every detector's invariant (pending is 0 or orbitCount + 1) |
| Integrator.TickKeepsTrailsBounded | script.js:463-465 | after a tick every trail is non-empty, holds at most 500 samples and ends at the body's new position; a full trail loses exactly its oldest sample |
| SolarSystem.Splice | script.js:365 | splice(start, 1): a start in range removes exactly that element and shifts the rest down; a start at or beyond the end changes nothing; a negative start counts from the end, clamped at 0 |
| SolarSystem.SpliceKeepsHead | script.js:362-365 | removing a positive index keeps the central body first |
| SolarSystem.Simulation.constructor | script.js:156-197 | start-up: the built-in configurations, bodies built from them, time 0, paused |
| SolarSystem.Simulation.CreatePlanets | script.js:247-288 | the bodies are rebuilt from the configurations, one per configuration, with fresh trails and trackers; nothing else changes |
| SolarSystem.Simulation.AddPlanet | script.js:325-360 | the default configuration (mass 10, at (200, 0, 0), velocity (0, 2, 0)) is appended and every body is rebuilt |
| SolarSystem.Simulation.AppendPlanet | script.js:339-359 | pushing a configuration, rebuilding, then re-initialising the last tracker leaves exactly the rebuilt bodies |
| SolarSystem.Simulation.RemovePlanet | script.js:362-368 | index 0 changes nothing; any other index splices the configurations and rebuilds the bodies; a positive index never removes the central body |
| SolarSystem.Simulation.ToggleSimulation | script.js:370-374 | flips the running flag and nothing else |
| SolarSystem.Simulation.ClearTrails | script.js:416-425 | every trail becomes empty; everything else is unchanged; the state stays valid |
| SolarSystem.Simulation.ResetSimulation | script.js:376-414 | afterwards paused, time 0, configurations unchanged and bodies exactly as freshly built (the per-body reset loop changes nothing) |
| SolarSystem.Simulation.UpdatePhysics | script.js:427-489 | paused: nothing changes; running: bodies and reports are Tick of the old bodies with dt = EffectiveDt and the pre-tick clock, and the clock advances by dt; the state stays valid (positive masses, trails within 500 samples, consistent detectors) |
| SolarSystem.TrackerResetIsIdentity | script.js:344-359 | re-initialising the tracker of a freshly built body yields the same body |

## Left out

- Rendering, camera and DOM: the Three.js scene, meshes, lights, camera controls, `createUI`, button labels, the time displays, `updateOrbitDisplay`, `updateTrails` (trail line geometry) and every `console.log` have no effect on the simulated state.
- `updateConfig`: it parses a text field and writes it into a configuration. Parsing DOM text is outside the model; `configs` is the state it would change.
- Names and colours of configurations, including `addPlanet`'s random colour: display only.
- Floating point: all quantities are exact reals. Rounding, overflow to Infinity and NaN propagation through the physics are not modelled. `Math.sqrt`, `Vector3.length` and `Math.atan2` are parameters (`sqrt`, `Numerics.length`, `Numerics.atan2`); the lemmas that need their defining property assume it (`IsSqrt`, `IsLength`).
- Infinity appears only as the initial closest distance, modelled as `None`. NaN appears only as the parsed time step, also modelled as `None`.
- Units.OrbitalVelocity: requires a non-zero distance, whereas JavaScript would return Infinity or NaN. Every planet in the data has a positive distance.
- SolarSystem.Simulation.UpdatePhysics: requires every mass to be positive (`Valid`), so negative masses are excluded as well as zero. Acceleration divides by mass, and a zero mass would make JavaScript produce Infinity or NaN. The code never checks the sign; only `updateConfig`, which is not modelled, could store a mass that is not positive, since the built-in data and `addPlanet` use positive masses.
- The animation loop (`requestAnimationFrame`) calling `updatePhysics` once per frame is not modelled; `UpdatePhysics` is one frame.
