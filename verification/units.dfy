/**
 * Unit scaling: simulation units are 1e6 km for distance and 1e24 kg for
 * mass, and the gravitational constant is rescaled once so that forces
 * computed in simulation units agree with physical circular-orbit speeds.
 */
module Units {

  const DistScale: real := 1000000.0
  const RadiusScale: real := 1000000.0
  const MassScale: real := 1000000000000000000000000.0
  /** Smallest drawn radius; affects display size only, never mass or gravity. */
  const MinRadius: real := 0.5

  /** The gravitational constant in km^3 / (kg s^2). */
  const GSI: real := 0.0000000000000000000667430
  /** The gravitational constant in simulation units. */
  const G: real := GSI * (1.0 / (DistScale * DistScale * DistScale)) * MassScale

  /** `sqrt` returns the non-negative square root of every non-negative real. */
  ghost predicate IsSqrt(sqrt: real -> real) {
    forall x :: 0.0 <= x ==> 0.0 <= sqrt(x) && sqrt(x) * sqrt(x) == x
  }

  /**
   * Speed of a circular orbit of radius `rKm` km around `centralMass` kg,
   * in simulation distance units per second. The square root is an input.
   */
  function OrbitalVelocity(sqrt: real -> real, centralMass: real, rKm: real): (v: real)
    requires rKm != 0.0
    ensures v * DistScale == sqrt(GSI * centralMass / rKm)
  {
    sqrt(GSI * centralMass / rKm) / DistScale
  }

  /** In km/s the orbital speed satisfies v^2 * r == G * M, the circular-orbit condition. */
  lemma CircularOrbitSpeed(sqrt: real -> real, centralMass: real, rKm: real)
    requires IsSqrt(sqrt)
    requires centralMass >= 0.0 && rKm > 0.0
    ensures var v := OrbitalVelocity(sqrt, centralMass, rKm);
      v >= 0.0 && (v * DistScale) * (v * DistScale) * rKm == GSI * centralMass
  {
    var x := GSI * centralMass / rKm;
    assert x >= 0.0;
    var s := sqrt(x);
    assert s >= 0.0 && s * s == x;
    assert x * rKm == GSI * centralMass;
  }

  /**
   * The scaled G is consistent with `OrbitalVelocity`: in simulation units the
   * seeded speed v at distance r from the central mass satisfies
   * G * M == v^2 * r, so the gravitational acceleration G * M / r^2 the
   * integrator applies equals the centripetal acceleration v^2 / r.
   */
  lemma ScaledGravityBalancesOrbit(sqrt: real -> real, centralMass: real, rKm: real)
    requires IsSqrt(sqrt)
    requires centralMass >= 0.0 && rKm > 0.0
    ensures var v := OrbitalVelocity(sqrt, centralMass, rKm);
      G * (centralMass / MassScale) == v * v * (rKm / DistScale)
  {
    var x := GSI * centralMass / rKm;
    var v := OrbitalVelocity(sqrt, centralMass, rKm);
    assert x >= 0.0;
    var s := sqrt(x);
    assert s * s == x;
    assert x * rKm == GSI * centralMass;
    assert v == s / DistScale;
    assert v * v == x / (DistScale * DistScale);
    assert v * v * rKm == GSI * centralMass / (DistScale * DistScale);
  }
}
