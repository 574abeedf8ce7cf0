/**
 * The simulator's global state: the configuration list, the bodies built
 * from it, the simulated clock and the running flag, with the operations
 * the controls and the animation loop call on them.
 */
module SolarSystem {
  import opened Wrappers
  import opened Vectors
  import opened OrbitDetector
  import opened Bodies
  import opened Integrator

  /** The index `Array.prototype.splice(start, ...)` starts at: negative values count from the end. */
  function SpliceIndex(len: nat, start: int): nat {
    if start < 0 then (if len + start < 0 then 0 else len + start)
    else if start < len then start
    else len
  }

  /** `s.splice(start, 1)`: the sequence left after removing one element at the resolved index, if any. */
  function Splice<T>(s: seq<T>, start: int): (r: seq<T>)
    ensures var k := SpliceIndex(|s|, start);
      && (k < |s| ==> |r| == |s| - 1
                      && (forall j :: 0 <= j < k ==> r[j] == s[j])
                      && (forall j :: k <= j < |r| ==> r[j] == s[j + 1]))
      && (k == |s| ==> r == s)
    ensures 0 <= start < |s| ==> SpliceIndex(|s|, start) == start
    ensures start >= |s| ==> r == s
    ensures -|s| <= start < 0 ==> SpliceIndex(|s|, start) == |s| + start
    ensures start < -|s| ==> SpliceIndex(|s|, start) == 0
    ensures forall x :: x in r ==> x in s
  {
    var k := SpliceIndex(|s|, start);
    if k < |s| then s[..k] + s[k + 1..] else s
  }

  /** Removing a positive index never touches the first element. */
  lemma SpliceKeepsHead<T>(s: seq<T>, start: int)
    requires 0 < start && 0 < |s|
    ensures 0 < |Splice(s, start)| && Splice(s, start)[0] == s[0]
  {
    var k := SpliceIndex(|s|, start);
    if k < |s| {
      assert |s| > 1;
    }
  }

  class Simulation {
    /** The numeric primitives (vector length, atan2) the simulator uses. */
    const num: Numerics
    var configs: seq<Config>
    var planets: seq<Body>
    var time: real
    var isRunning: bool

    /**
     * One body per configuration, every mass positive, every trail within
     * its 500 samples and every revolution detector consistent.
     */
    ghost predicate Valid()
      reads this
    {
      && |planets| == |configs| && PositiveMasses(configs)
      && MassesPositive(planets) && BodiesWellFormed(planets)
    }

    /** Start-up: the built-in configuration list, its bodies, the clock at 0 and the simulation paused. */
    constructor(num: Numerics, sqrt: real -> real)
      ensures Valid()
      ensures this.num == num && configs == InitialConfigs(sqrt)
      ensures planets == BuildBodies(num, configs)
      ensures time == 0.0 && !isRunning
    {
      this.num := num;
      configs := InitialConfigs(sqrt);
      planets := [];
      time := 0.0;
      isRunning := false;
      new;
      CreatePlanets();
    }

    /** `createPlanets`: every body rebuilt from its configuration, with a fresh trail and tracker. */
    method CreatePlanets()
      requires PositiveMasses(configs)
      modifies this
      ensures Valid()
      ensures planets == BuildBodies(num, configs)
      ensures configs == old(configs) && time == old(time) && isRunning == old(isRunning)
    {
      planets := [];
      var index := 0;
      while index < |configs|
        invariant 0 <= index <= |configs| && |planets| == index
        invariant forall k :: 0 <= k < index ==> planets[k] == NewBody(num, configs[k])
        invariant configs == old(configs) && time == old(time) && isRunning == old(isRunning)
      {
        var config := configs[index];
        var planet := Body(config.mass, config.position, config.velocity, [],
                           NewTracker(num, config.position, config.velocity));
        planets := planets + [planet];
        index := index + 1;
      }
      BuiltMassesPositive(num, configs);
    }

    /** `addPlanet`: append the default configuration and rebuild every body. */
    method AddPlanet()
      requires Valid()
      modifies this
      ensures Valid()
      ensures configs == old(configs) + [DefaultConfig]
      ensures planets == BuildBodies(num, configs)
      ensures time == old(time) && isRunning == old(isRunning)
    {
      AppendPlanet(DefaultConfig);
    }

    /**
     * The work of `addPlanet` once the new configuration is built: push it,
     * rebuild every body, then re-initialise the last body's tracker.
     */
    method AppendPlanet(config: Config)
      requires Valid() && config.mass > 0.0
      modifies this
      ensures Valid()
      ensures configs == old(configs) + [config]
      ensures planets == BuildBodies(num, configs)
      ensures time == old(time) && isRunning == old(isRunning)
    {
      configs := configs + [config];
      CreatePlanets();
      var newPlanetIndex := |planets| - 1;
      if 0 <= newPlanetIndex {
        var planet := planets[newPlanetIndex];
        var refreshed := planets[newPlanetIndex := planet.(tracker := NewTracker(num, planet.position, planet.velocity))];
        assert refreshed == planets by {
          TrackerResetIsIdentity(num, configs, newPlanetIndex);
        }
        planets := refreshed;
      }
    }

    /**
     * `removePlanet`: index 0, the central body, is refused and nothing
     * changes; any other index is spliced out of the configuration list and
     * every body is rebuilt.
     */
    method RemovePlanet(index: int)
      requires Valid()
      modifies this
      ensures Valid()
      ensures index == 0 ==> configs == old(configs) && planets == old(planets)
      ensures index != 0 ==> configs == Splice(old(configs), index) && planets == BuildBodies(num, configs)
      ensures 0 < index && 0 < |old(configs)| ==> 0 < |configs| && configs[0] == old(configs)[0]
      ensures time == old(time) && isRunning == old(isRunning)
    {
      if index == 0 {
        return;
      }
      if index > 0 && |configs| > 0 {
        SpliceKeepsHead(configs, index);
      }
      configs := Splice(configs, index);
      CreatePlanets();
    }

    /** `toggleSimulation`: flip between running and paused. */
    method ToggleSimulation()
      modifies this
      ensures isRunning == !old(isRunning)
      ensures configs == old(configs) && planets == old(planets) && time == old(time)
    {
      isRunning := !isRunning;
    }

    /** `clearTrails`: every trail emptied, nothing else touched. */
    method ClearTrails()
      requires Valid()
      modifies this
      ensures Valid()
      ensures |planets| == |old(planets)|
      ensures forall k :: 0 <= k < |planets| ==> planets[k] == old(planets)[k].(trail := [])
      ensures configs == old(configs) && time == old(time) && isRunning == old(isRunning)
    {
      var index := 0;
      while index < |planets|
        invariant 0 <= index <= |planets| == |old(planets)|
        invariant forall k :: 0 <= k < index ==> planets[k] == old(planets)[k].(trail := [])
        invariant forall k :: index <= k < |planets| ==> planets[k] == old(planets)[k]
        invariant configs == old(configs) && time == old(time) && isRunning == old(isRunning)
      {
        planets := planets[index := planets[index].(trail := [])];
        index := index + 1;
      }
    }

    /**
     * `resetSimulation`: pause, set the clock to 0 and put every body back to
     * its configuration with an empty trail and, except for the central body,
     * a fresh tracker.
     */
    method ResetSimulation()
      requires Valid()
      modifies this
      ensures Valid()
      ensures !isRunning && time == 0.0
      ensures configs == old(configs) && planets == BuildBodies(num, configs)
    {
      if isRunning {
        ToggleSimulation();
      }
      time := 0.0;
      ClearTrails();
      CreatePlanets();
      var index := 0;
      while index < |configs|
        invariant 0 <= index <= |configs|
        invariant Valid() && planets == BuildBodies(num, configs)
        invariant configs == old(configs) && time == 0.0 && !isRunning
      {
        if index < |planets| {
          var config := configs[index];
          var planet := planets[index].(position := config.position, velocity := config.velocity);
          if index > 0 {
            planet := planet.(tracker := NewTracker(num, planet.position, planet.velocity));
          }
          assert planet == planets[index];
          planets := planets[index := planet];
        }
        index := index + 1;
      }
    }

    /**
     * `updatePhysics`: while paused nothing happens. While running, each body
     * in turn is pulled by all the others as they stand at that moment, takes
     * a semi-implicit Euler step, records its new position in its trail and,
     * unless it is the central body, advances its revolution detector with
     * the clock value from before this tick; then the clock advances by dt.
     * `dtInput` is the parsed time-scale field, `None` for NaN.
     */
    method UpdatePhysics(dtInput: Option<real>) returns (reports: seq<OrbitReport>)
      requires Valid()
      modifies this
      ensures Valid()
      ensures !old(isRunning) ==> planets == old(planets) && time == old(time) && reports == []
      ensures old(isRunning) ==>
        && (planets, reports) == Tick(num, old(planets), EffectiveDt(dtInput), old(time))
        && time == old(time) + EffectiveDt(dtInput)
      ensures configs == old(configs) && isRunning == old(isRunning)
    {
      if !isRunning {
        return [];
      }
      var dt := EffectiveDt(dtInput);
      TickKeepsBodiesWellFormed(num, planets, dt, time);
      planets, reports := TickBodies(num, planets, dt, time);
      time := time + dt;
    }
  }

  /** Bodies built from positive-mass configurations have positive masses. */
  lemma BuiltMassesPositive(num: Numerics, configs: seq<Config>)
    requires PositiveMasses(configs)
    ensures MassesPositive(BuildBodies(num, configs))
  {
    var bs := BuildBodies(num, configs);
    forall j | 0 <= j < |bs|
      ensures bs[j].mass > 0.0
    {
      assert configs[j] in configs;
    }
  }

  /** Re-initialising the tracker of a freshly built body changes nothing. */
  lemma TrackerResetIsIdentity(num: Numerics, configs: seq<Config>, k: nat)
    requires k < |configs|
    ensures var bs := BuildBodies(num, configs);
      bs[k := bs[k].(tracker := NewTracker(num, bs[k].position, bs[k].velocity))] == bs
  {
    var bs := BuildBodies(num, configs);
    assert bs[k] == NewBody(num, configs[k]);
  }
}
