/** Body configurations and the simulated bodies built from them. */
module Bodies {
  import opened Vectors
  import opened Units
  import opened OrbitDetector

  /** A body's configuration in simulation units (name and colour are display-only and omitted). */
  datatype Config = Config(mass: real, radius: real, position: Vec3, velocity: Vec3)

  /** A simulated body: its dynamic state, its trail of recent positions and its revolution detector. */
  datatype Body = Body(mass: real, position: Vec3, velocity: Vec3, trail: seq<Vec3>, tracker: Tracker)

  /** The configuration `addPlanet` appends. */
  const DefaultConfig: Config := Config(10.0, 5.0, Vec3(200.0, 0.0, 0.0), Vec3(0.0, 2.0, 0.0))

  ghost predicate PositiveMasses(configs: seq<Config>) {
    forall c :: c in configs ==> c.mass > 0.0
  }

  /**
   * A configuration from physical data: radius and distance in km, mass in kg,
   * placed on the x axis and moving along y at `speed` (simulation units per second).
   */
  function ScaledConfig(radiusKm: real, massKg: real, distanceKm: real, speed: real): (c: Config)
    ensures c.mass * MassScale == massKg
    ensures massKg > 0.0 ==> c.mass > 0.0
    ensures c.radius >= MinRadius && c.radius >= radiusKm / RadiusScale
    ensures c.radius == MinRadius || c.radius == radiusKm / RadiusScale
    ensures c.position.x * DistScale == distanceKm && c.position.y == 0.0 && c.position.z == 0.0
    ensures c.velocity == Vec3(0.0, speed, 0.0)
  {
    var radius := radiusKm / RadiusScale;
    Config(massKg / MassScale, if radius > MinRadius then radius else MinRadius,
           Vec3(distanceKm / DistScale, 0.0, 0.0), Vec3(0.0, speed, 0.0))
  }

  /** Physical data of one body: radius and orbital distance in km, mass in kg. */
  datatype PhysicalData = PhysicalData(radiusKm: real, massKg: real, distanceKm: real)

  const Sun: PhysicalData := PhysicalData(695700.0, 1988400000000000000000000000000.0, 0.0)

  /** Mercury, Venus, Earth, Mars, Jupiter, Saturn, Uranus and Neptune, in that order. */
  const Planets: seq<PhysicalData> := [
    PhysicalData(2439.7, 330100000000000000000000.0, 57909000.0),
    PhysicalData(6051.8, 4867300000000000000000000.0, 108210000.0),
    PhysicalData(6371.0, 5972200000000000000000000.0, 149598000.0),
    PhysicalData(3389.5, 641690000000000000000000.0, 227956000.0),
    PhysicalData(69911.0, 1898130000000000000000000000.0, 778479000.0),
    PhysicalData(58232.0, 568320000000000000000000000.0, 1432041000.0),
    PhysicalData(25362.0, 86811000000000000000000000.0, 2867043000.0),
    PhysicalData(24622.0, 102409000000000000000000000.0, 4514953000.0)
  ]

  /** The central body's configuration: at rest, on the x axis at its own distance. */
  function CentralConfig(central: PhysicalData): (c: Config)
    ensures c.position.x * DistScale == central.distanceKm && c.position.y == 0.0 && c.position.z == 0.0
    ensures c.velocity == Zero
    ensures c.mass * MassScale == central.massKg
  {
    ScaledConfig(central.radiusKm, central.massKg, central.distanceKm, 0.0)
  }

  /** A planet's configuration: on the x axis, moving along y at its circular-orbit speed around `central`. */
  function PlanetConfig(sqrt: real -> real, central: PhysicalData, d: PhysicalData): (c: Config)
    requires d.distanceKm != 0.0
    ensures c.position.x * DistScale == d.distanceKm && c.position.y == 0.0 && c.position.z == 0.0
    ensures c.velocity.x == 0.0 && c.velocity.z == 0.0
    ensures c.velocity.y * DistScale == sqrt(GSI * central.massKg / d.distanceKm)
    ensures c.mass * MassScale == d.massKg
  {
    ScaledConfig(d.radiusKm, d.massKg, d.distanceKm, OrbitalVelocity(sqrt, central.massKg, d.distanceKm))
  }

  /** The configuration list of a system: the central body first, then each planet in order. */
  function SystemConfigs(sqrt: real -> real, central: PhysicalData, planets: seq<PhysicalData>): (cs: seq<Config>)
    requires forall k :: 0 <= k < |planets| ==> planets[k].distanceKm != 0.0
    ensures |cs| == 1 + |planets| && cs[0] == CentralConfig(central)
    ensures forall k :: 0 <= k < |planets| ==> cs[k + 1] == PlanetConfig(sqrt, central, planets[k])
    ensures central.massKg > 0.0 && (forall k :: 0 <= k < |planets| ==> planets[k].massKg > 0.0) ==> PositiveMasses(cs)
  {
    [CentralConfig(central)] + seq(|planets|, k requires 0 <= k < |planets| => PlanetConfig(sqrt, central, planets[k]))
  }

  /** The initial configuration list: the Sun at rest at the origin, then the eight planets. */
  function InitialConfigs(sqrt: real -> real): (cs: seq<Config>)
    ensures |cs| == 1 + |Planets|
    ensures cs[0].position == Zero && cs[0].velocity == Zero && cs[0].mass * MassScale == Sun.massKg
    ensures forall k :: 0 <= k < |Planets| ==> cs[k + 1] == PlanetConfig(sqrt, Sun, Planets[k])
    ensures PositiveMasses(cs)
  {
    PlanetDataPositive();
    SystemConfigs(sqrt, Sun, Planets)
  }

  lemma PlanetDataPositive()
    ensures forall k :: 0 <= k < |Planets| ==> Planets[k].massKg > 0.0 && Planets[k].distanceKm > 0.0
  {
  }

  /**
   * A configuration on the x axis moving along y is on a circular orbit around
   * a central mass when the gravitational acceleration G * M / r^2 equals the
   * centripetal acceleration v^2 / r, that is G * M == v^2 * r.
   */
  ghost predicate OnCircularOrbit(centralMass: real, c: Config) {
    G * centralMass == c.velocity.y * c.velocity.y * c.position.x
  }

  /**
   * In any system built by `SystemConfigs`, every planet starts on a circular
   * orbit around the central body as the integrator sees it: with the central
   * scaled mass M, a planet's distance r and speed v in simulation units
   * satisfy G * M == v^2 * r.
   */
  lemma SystemOrbitsBalanced(sqrt: real -> real, central: PhysicalData, planets: seq<PhysicalData>, k: nat)
    requires IsSqrt(sqrt) && central.massKg >= 0.0 && 0 < k < 1 + |planets|
    requires forall j :: 0 <= j < |planets| ==> planets[j].distanceKm > 0.0
    ensures var cs := SystemConfigs(sqrt, central, planets);
      OnCircularOrbit(cs[0].mass, cs[k])
  {
    var cs := SystemConfigs(sqrt, central, planets);
    assert cs[k] == PlanetConfig(sqrt, central, planets[k - 1]);
    PlanetOnCircularOrbit(sqrt, central, planets[k - 1]);
  }

  /** A planet configured by `PlanetConfig` is on a circular orbit around the central body's configuration. */
  lemma PlanetOnCircularOrbit(sqrt: real -> real, central: PhysicalData, d: PhysicalData)
    requires IsSqrt(sqrt) && central.massKg >= 0.0 && d.distanceKm > 0.0
    ensures OnCircularOrbit(CentralConfig(central).mass, PlanetConfig(sqrt, central, d))
  {
    OrbitBalanced(sqrt, CentralConfig(central), PlanetConfig(sqrt, central, d), central.massKg, d.distanceKm);
  }

  /** Every planet of the initial system starts on a circular orbit around the Sun. */
  lemma InitialOrbitsBalanced(sqrt: real -> real, k: nat)
    requires IsSqrt(sqrt) && 0 < k < 1 + |Planets|
    ensures var cs := InitialConfigs(sqrt);
      OnCircularOrbit(cs[0].mass, cs[k])
  {
    PlanetDataPositive();
    SystemOrbitsBalanced(sqrt, Sun, Planets, k);
  }

  /** The circular-orbit balance, stated on configurations built from physical data. */
  lemma OrbitBalanced(sqrt: real -> real, central: Config, c: Config, centralMassKg: real, distanceKm: real)
    requires IsSqrt(sqrt) && centralMassKg >= 0.0 && distanceKm > 0.0
    requires central.mass * MassScale == centralMassKg
    requires c.position.x * DistScale == distanceKm
    requires c.velocity.y * DistScale == sqrt(GSI * centralMassKg / distanceKm)
    ensures OnCircularOrbit(central.mass, c)
  {
    ScaledGravityBalancesOrbit(sqrt, centralMassKg, distanceKm);
    assert c.velocity.y == OrbitalVelocity(sqrt, centralMassKg, distanceKm);
    assert central.mass == centralMassKg / MassScale;
    assert c.position.x == distanceKm / DistScale;
  }

  /** The body `createPlanets` builds from one configuration. */
  function NewBody(num: Numerics, c: Config): (b: Body)
    ensures b.mass == c.mass && b.position == c.position && b.velocity == c.velocity
    ensures b.trail == []
    ensures IsCleared(b.tracker) && b.tracker.initialPosition == c.position
    ensures b.tracker.initialRadius == num.length(c.position)
  {
    Body(c.mass, c.position, c.velocity, [], NewTracker(num, c.position, c.velocity))
  }

  /** Every body rebuilt from its configuration, in order. */
  function BuildBodies(num: Numerics, configs: seq<Config>): (bs: seq<Body>)
    ensures |bs| == |configs|
    ensures forall k :: 0 <= k < |configs| ==>
      && bs[k].mass == configs[k].mass
      && bs[k].position == configs[k].position
      && bs[k].velocity == configs[k].velocity
      && bs[k].trail == []
      && IsCleared(bs[k].tracker)
  {
    seq(|configs|, k requires 0 <= k < |configs| => NewBody(num, configs[k]))
  }
}
