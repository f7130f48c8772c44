/** The application's shared mutable state and everything that changes it: the
    per-tick force handler, the scene builder, the control handlers that patch
    live bodies and links in place or rebuild the scene, preset application,
    and the re-layout done after a resize. The engine's bodies and constraints
    are the records of module Layout held in sequences; the forces the tick
    handler applies accumulate in an array indexed like `nodes`. */
module Simulation {
  import opened Geometry
  import opened Configuration
  import opened Forces
  import opened Layout
  import opened Viewport

  class World {
    var config: Config
    /** None until the first scene is built. */
    var center: Option<Body>
    var nodes: seq<Body>
    var connections: seq<Link>

    /** One link per node, link i joining the centre to node i; no nodes before
        the first build, nodeCount nodes after any build. */
    ghost predicate Valid()
      reads this
    {
      LinksMatchNodes(connections, |nodes|) &&
      (center.None? ==> nodes == []) &&
      (center.Some? ==> |nodes| == config.nodeCount)
    }

    /** The configuration starts as a copy of the first preset; no scene yet. */
    constructor ()
      ensures Valid()
      ensures config == Preset(Preset1)
      ensures center == None && nodes == [] && connections == []
    {
      config := Preset(Preset1);
      center := None;
      nodes := [];
      connections := [];
    }

    // -------------------------------------------------------------------------
    // Force field

    /** The handler run before every engine step. Adds to force[k] the force
        node k receives this tick; sqrt stands for Math.sqrt. Does nothing when
        there is no centre body or no node. */
    method BeforeUpdate(force: array<Vec>, sqrt: real -> real)
      requires force.Length == |nodes|
      modifies force
      ensures center.None? || |nodes| == 0 ==> force[..] == old(force[..])
      ensures center.Some? && |nodes| > 0 ==>
                force[..] == TickForces(old(force[..]), center.value.pos, Positions(nodes), sqrt, config)
    {
      if center.None? || |nodes| == 0 {
        return;
      }
      var c := center.value.pos;
      var ps := Positions(nodes);
      ApplyAttraction(force, c, ps, sqrt, config);
      ghost var attracted := force[..];
      var i := 0;
      while i < |ps|
        invariant 0 <= i <= |ps|
        invariant force[..] == RepulsionPass(attracted, ps, sqrt, config, i)
      {
        ApplyRepulsionRow(force, ps, sqrt, config, i);
        i := i + 1;
      }
    }

    // -------------------------------------------------------------------------
    // Scene builder

    /** Discards every body and link and builds the scene for the current
        configuration in a width x height window. Also what the reset button
        does. */
    method CreateScene(width: real, height: real, turnCos: real -> real, turnSin: real -> real)
      modifies this`center, this`nodes, this`connections
      ensures Valid()
      ensures center == Some(CenterBody(config, width, height))
      ensures |nodes| == config.nodeCount
      ensures forall i :: 0 <= i < |nodes| ==> nodes[i] == OrbitNode(config, i, width, height, turnCos, turnSin)
      ensures |connections| == config.nodeCount
      ensures forall i :: 0 <= i < |connections| ==> connections[i] == Spring(config, i)
    {
      nodes := [];
      connections := [];
      var centre := ScreenCentre(width, height);
      center := Some(Body(centre, Zero, config.centerSize, Fixed(config.centerMass),
                          config.centerFriction, 0.2, LightGray));

      var i := 0;
      while i < config.nodeCount
        invariant 0 <= i <= config.nodeCount
        invariant center == Some(CenterBody(config, width, height)) && connections == []
        invariant |nodes| == i
        invariant forall k :: 0 <= k < i ==> nodes[k] == OrbitNode(config, k, width, height, turnCos, turnSin)
      {
        var angleFraction := i as real / config.nodeCount as real;
        var x := centre.x + config.orbitRadius * turnCos(angleFraction);
        var y := centre.y + config.orbitRadius * turnSin(angleFraction);
        var hue := angleFraction * 360.0;
        nodes := nodes + [Body(Vec(x, y), Zero, config.nodeSize, EngineDefault,
                               config.nodeFriction, 0.3, Hsl(hue))];
        i := i + 1;
      }

      // One link per node, from the centre.
      var k := 0;
      while k < |nodes|
        invariant 0 <= k <= |nodes| == config.nodeCount
        invariant center == Some(CenterBody(config, width, height))
        invariant forall m :: 0 <= m < |nodes| ==> nodes[m] == OrbitNode(config, m, width, height, turnCos, turnSin)
        invariant |connections| == k
        invariant forall m :: 0 <= m < k ==> connections[m] == Spring(config, m)
      {
        connections := connections + [Link(CenterRef, NodeRef(k), config.showSprings,
                                           config.connectionStiffness, 0.1, config.orbitRadius)];
        k := k + 1;
      }
    }

    // -------------------------------------------------------------------------
    // Controls that patch the live scene in place

    method SetCenterMass(value: real)
      requires Valid()
      modifies this`config, this`center
      ensures Valid()
      ensures config == old(config).(centerMass := value)
      ensures center == if old(center).None? then None else Some(old(center).value.(mass := Fixed(value)))
    {
      config := config.(centerMass := value);
      if center.Some? {
        center := Some(center.value.(mass := Fixed(value)));
      }
    }

    method SetCenterFriction(value: real)
      requires Valid()
      modifies this`config, this`center
      ensures Valid()
      ensures config == old(config).(centerFriction := value)
      ensures center == if old(center).None? then None else Some(old(center).value.(frictionAir := value))
    {
      config := config.(centerFriction := value);
      if center.Some? {
        center := Some(center.value.(frictionAir := value));
      }
    }

    /** New rest length on every link; bodies are not moved. */
    method SetOrbitRadius(value: int)
      requires Valid()
      modifies this`config, this`connections
      ensures Valid()
      ensures config == old(config).(orbitRadius := value as real)
      ensures |connections| == |old(connections)|
      ensures forall i :: 0 <= i < |connections| ==> connections[i] == old(connections[i]).(length := value as real)
    {
      config := config.(orbitRadius := value as real);
      var i := 0;
      while i < |connections|
        invariant 0 <= i <= |connections| == |old(connections)|
        invariant config == old(config).(orbitRadius := value as real)
        invariant forall k :: 0 <= k < i ==> connections[k] == old(connections[k]).(length := value as real)
        invariant forall k :: i <= k < |connections| ==> connections[k] == old(connections[k])
      {
        connections := connections[i := connections[i].(length := config.orbitRadius)];
        i := i + 1;
      }
    }

    /** New air friction on every node (the centre keeps its own). */
    method SetNodeFriction(value: real)
      requires Valid()
      modifies this`config, this`nodes
      ensures Valid()
      ensures config == old(config).(nodeFriction := value)
      ensures |nodes| == |old(nodes)|
      ensures forall i :: 0 <= i < |nodes| ==> nodes[i] == old(nodes[i]).(frictionAir := value)
    {
      config := config.(nodeFriction := value);
      var i := 0;
      while i < |nodes|
        invariant 0 <= i <= |nodes| == |old(nodes)|
        invariant config == old(config).(nodeFriction := value)
        invariant forall k :: 0 <= k < i ==> nodes[k] == old(nodes[k]).(frictionAir := value)
        invariant forall k :: i <= k < |nodes| ==> nodes[k] == old(nodes[k])
      {
        nodes := nodes[i := nodes[i].(frictionAir := config.nodeFriction)];
        i := i + 1;
      }
    }

    method SetConnectionStiffness(value: real)
      requires Valid()
      modifies this`config, this`connections
      ensures Valid()
      ensures config == old(config).(connectionStiffness := value)
      ensures |connections| == |old(connections)|
      ensures forall i :: 0 <= i < |connections| ==> connections[i] == old(connections[i]).(stiffness := value)
    {
      config := config.(connectionStiffness := value);
      var i := 0;
      while i < |connections|
        invariant 0 <= i <= |connections| == |old(connections)|
        invariant config == old(config).(connectionStiffness := value)
        invariant forall k :: 0 <= k < i ==> connections[k] == old(connections[k]).(stiffness := value)
        invariant forall k :: i <= k < |connections| ==> connections[k] == old(connections[k])
      {
        connections := connections[i := connections[i].(stiffness := config.connectionStiffness)];
        i := i + 1;
      }
    }

    /** Shows or hides every existing link. */
    method SetShowSprings(value: bool)
      requires Valid()
      modifies this`config, this`connections
      ensures Valid()
      ensures config == old(config).(showSprings := value)
      ensures |connections| == |old(connections)|
      ensures forall i :: 0 <= i < |connections| ==> connections[i] == old(connections[i]).(visible := value)
    {
      config := config.(showSprings := value);
      var i := 0;
      while i < |connections|
        invariant 0 <= i <= |connections| == |old(connections)|
        invariant config == old(config).(showSprings := value)
        invariant forall k :: 0 <= k < i ==> connections[k] == old(connections[k]).(visible := value)
        invariant forall k :: i <= k < |connections| ==> connections[k] == old(connections[k])
      {
        connections := connections[i := connections[i].(visible := config.showSprings)];
        i := i + 1;
      }
    }

    // -------------------------------------------------------------------------
    // Controls that only change the configuration (read by the next tick or by
    // the overlay)

    method SetAttractionForce(value: real)
      requires Valid()
      modifies this`config
      ensures Valid()
      ensures config == old(config).(attractionForce := value)
    {
      config := config.(attractionForce := value);
    }

    method SetRepulsionForce(value: real)
      requires Valid()
      modifies this`config
      ensures Valid()
      ensures config == old(config).(repulsionForce := value)
    {
      config := config.(repulsionForce := value);
    }

    method SetRepulsionDistance(value: real)
      requires Valid()
      modifies this`config
      ensures Valid()
      ensures config == old(config).(repulsionDistance := value)
    {
      config := config.(repulsionDistance := value);
    }

    method SetShowConnections(value: bool)
      requires Valid()
      modifies this`config
      ensures Valid()
      ensures config == old(config).(showConnections := value)
    {
      config := config.(showConnections := value);
    }

    // -------------------------------------------------------------------------
    // Structural controls: change the configuration, then rebuild

    method SetCenterSize(value: int, width: real, height: real, turnCos: real -> real, turnSin: real -> real)
      modifies this
      ensures Valid()
      ensures config == old(config).(centerSize := value as real)
      ensures center == Some(CenterBody(config, width, height))
      ensures |nodes| == config.nodeCount
      ensures forall i :: 0 <= i < |nodes| ==> nodes[i] == OrbitNode(config, i, width, height, turnCos, turnSin)
      ensures forall i :: 0 <= i < |connections| ==> connections[i] == Spring(config, i)
    {
      config := config.(centerSize := value as real);
      CreateScene(width, height, turnCos, turnSin);
    }

    /** The old nodes and links are all discarded: exactly `value` of each remain. */
    method SetNodeCount(value: nat, width: real, height: real, turnCos: real -> real, turnSin: real -> real)
      modifies this
      ensures Valid()
      ensures config == old(config).(nodeCount := value)
      ensures center == Some(CenterBody(config, width, height))
      ensures |nodes| == value && |connections| == value
      ensures forall i :: 0 <= i < |nodes| ==> nodes[i] == OrbitNode(config, i, width, height, turnCos, turnSin)
      ensures forall i :: 0 <= i < |connections| ==> connections[i] == Spring(config, i)
    {
      config := config.(nodeCount := value);
      CreateScene(width, height, turnCos, turnSin);
    }

    method SetNodeSize(value: int, width: real, height: real, turnCos: real -> real, turnSin: real -> real)
      modifies this
      ensures Valid()
      ensures config == old(config).(nodeSize := value as real)
      ensures center == Some(CenterBody(config, width, height))
      ensures |nodes| == config.nodeCount
      ensures forall i :: 0 <= i < |nodes| ==> nodes[i] == OrbitNode(config, i, width, height, turnCos, turnSin)
      ensures forall i :: 0 <= i < |connections| ==> connections[i] == Spring(config, i)
    {
      config := config.(nodeSize := value as real);
      CreateScene(width, height, turnCos, turnSin);
    }

    /** Overwrites every configuration field with the preset's, whatever the
        configuration was, then rebuilds; so applying a preset twice leaves the
        same configuration as applying it once. */
    method ApplyPreset(name: PresetName, width: real, height: real, turnCos: real -> real, turnSin: real -> real)
      modifies this
      ensures Valid()
      ensures config == Preset(name)
      ensures center == Some(CenterBody(config, width, height))
      ensures |nodes| == config.nodeCount
      ensures forall i :: 0 <= i < |nodes| ==> nodes[i] == OrbitNode(config, i, width, height, turnCos, turnSin)
      ensures forall i :: 0 <= i < |connections| ==> connections[i] == Spring(config, i)
    {
      config := Preset(name);
      CreateScene(width, height, turnCos, turnSin);
    }

    // -------------------------------------------------------------------------
    // Resize

    /** The debounced resize callback for a width x height window (sqrt stands
        for Math.sqrt). If the centre body is strictly farther than the edge
        threshold from the window centre, it is moved there, every node is put
        back on its orbit position around it, and every velocity becomes zero;
        otherwise nothing changes. */
    method HandleResize(width: real, height: real, sqrt: real -> real,
                        turnCos: real -> real, turnSin: real -> real)
      requires Valid()
      modifies this`center, this`nodes
      ensures Valid()
      ensures var recenter := old(center).Some? &&
                NeedsRecenter(sqrt(DistSq(ScreenCentre(width, height), old(center).value.pos)), width, height);
              (!recenter ==> center == old(center) && nodes == old(nodes)) &&
              (recenter ==>
                 center == Some(old(center).value.(pos := ScreenCentre(width, height), vel := Zero)) &&
                 |nodes| == |old(nodes)| &&
                 forall i :: 0 <= i < |nodes| ==>
                   nodes[i] == Relaid(old(nodes[i]), config, i, ScreenCentre(width, height), turnCos, turnSin))
    {
      if center.None? {
        return;
      }
      var centre := ScreenCentre(width, height);
      var edgeThreshold := Min(width, height) * 0.4;
      var dx := centre.x - center.value.pos.x;
      var dy := centre.y - center.value.pos.y;
      assert dx * dx + dy * dy == DistSq(centre, center.value.pos);
      var distanceFromCenter := sqrt(dx * dx + dy * dy);
      if distanceFromCenter > edgeThreshold {
        center := Some(center.value.(pos := centre, vel := Zero));
        ResetFormation(centre, turnCos, turnSin);
      }
    }

    /** The re-layout loop of the resize callback: every node back at its orbit
        position around centre, with zero velocity. */
    method ResetFormation(centre: Vec, turnCos: real -> real, turnSin: real -> real)
      requires |nodes| == config.nodeCount
      modifies this`nodes
      ensures |nodes| == |old(nodes)|
      ensures forall i :: 0 <= i < |nodes| ==>
                nodes[i] == Relaid(old(nodes[i]), config, i, centre, turnCos, turnSin)
    {
      var count := |nodes|;
      var i := 0;
      while i < count
        invariant 0 <= i <= count == |nodes| == |old(nodes)| == config.nodeCount
        invariant forall k :: 0 <= k < i ==> nodes[k] == Relaid(old(nodes[k]), config, k, centre, turnCos, turnSin)
        invariant forall k :: i <= k < count ==> nodes[k] == old(nodes[k])
      {
        var angleFraction := i as real / config.nodeCount as real;
        var x := centre.x + config.orbitRadius * turnCos(angleFraction);
        var y := centre.y + config.orbitRadius * turnSin(angleFraction);
        assert Vec(x, y) == OrbitPoint(centre, config.orbitRadius, TurnFraction(i, config.nodeCount), turnCos, turnSin);
        nodes := nodes[i := nodes[i].(pos := Vec(x, y), vel := Zero)];
        i := i + 1;
      }
    }
  }

  /** The body of the attraction loop for one node: the node's distance from
      the centre picks the multiplier, which scales the node-to-centre vector. */
  method AttractionStep(c: Vec, nodePos: Vec, sqrt: real -> real, cfg: Config) returns (force: Vec)
    ensures force == Attraction(c, nodePos, sqrt(DistSq(c, nodePos)), cfg)
  {
    var dx := c.x - nodePos.x;
    var dy := c.y - nodePos.y;
    var distSq := dx * dx + dy * dy;
    var distance := sqrt(distSq);
    var attractionMultiplier;
    if distance > OrbitRadiusOuter(cfg) {
      attractionMultiplier := cfg.attractionForce * 1.5;
    } else if distance < OrbitRadiusInner(cfg) {
      attractionMultiplier := cfg.attractionForce * 0.5;
    } else {
      attractionMultiplier := cfg.attractionForce;
    }
    assert distSq == DistSq(c, nodePos);
    force := Vec(dx * attractionMultiplier, dy * attractionMultiplier);
  }

  /** The body of the repulsion loop for one pair: the squared-distance early
      out, then penetration, touch escalation and the normalised force on the
      first node; None when the pair is skipped. */
  method RepulsionStep(posA: Vec, posB: Vec, sqrt: real -> real, cfg: Config) returns (force: Option<Vec>)
    ensures force == PairForce(posA, posB, sqrt(DistSq(posA, posB)), cfg)
  {
    var combinedRepulsionRadius := NodeRepulsionRadius(cfg) * 2.0;
    var dx := posA.x - posB.x;
    var dy := posA.y - posB.y;
    var distSq := dx * dx + dy * dy;
    assert distSq == DistSq(posA, posB);
    if distSq < combinedRepulsionRadius * combinedRepulsionRadius {
      DistSqNonNegative(posA, posB);
      assert combinedRepulsionRadius == CombinedRadius(cfg);
      assert InRepulsionRange(posA, posB, cfg);
      var distance := sqrt(distSq);
      var penetration := 1.0 - distance / combinedRepulsionRadius;
      var penetrationSq := penetration * penetration;
      var forceMagnitude := if distance < NodeTouchDistance(cfg)
                            then ForceStrong(cfg) * penetrationSq
                            else cfg.repulsionForce * penetrationSq;
      // Coincident nodes are skipped: there is no direction to push along.
      assert distance == sqrt(DistSq(posA, posB));
      if distance == 0.0 {
        return None;
      }
      // Normalised direction, scaled by the magnitude.
      var invDist := 1.0 / distance;
      assert forceMagnitude == RepulsionMagnitude(distance, cfg);
      force := Some(Scale(Scale(Vec(dx, dy), invDist), forceMagnitude));
    } else {
      assert !InRepulsionRange(posA, posB, cfg);
      force := None;
    }
  }

  /** The attraction loop of the tick handler: node k's accumulated force grows
      by its attraction towards the centre, once, for every k. */
  method ApplyAttraction(force: array<Vec>, c: Vec, ps: seq<Vec>, sqrt: real -> real, cfg: Config)
    requires force.Length == |ps|
    modifies force
    ensures force[..] == AttractionPass(old(force[..]), c, ps, sqrt, cfg)
  {
    var i := 0;
    while i < |ps|
      invariant 0 <= i <= |ps|
      invariant forall k :: 0 <= k < i ==>
                  force[k] == Plus(old(force[k]), Attraction(c, ps[k], sqrt(DistSq(c, ps[k])), cfg))
      invariant forall k :: i <= k < |ps| ==> force[k] == old(force[k])
    {
      var attraction := AttractionStep(c, ps[i], sqrt, cfg);
      force[i] := Plus(force[i], attraction);
      i := i + 1;
    }
  }

  /** One row i of the repulsion loop: the pairs (i, i+1), ..., (i, n-1) in
      order, each pushing +F onto node i and -F onto node j when in range. */
  method ApplyRepulsionRow(force: array<Vec>, ps: seq<Vec>, sqrt: real -> real, cfg: Config, i: nat)
    requires force.Length == |ps| && i < |ps|
    modifies force
    ensures force[..] == RowPass(old(force[..]), ps, sqrt, cfg, i, |ps|)
  {
    var j := i + 1;
    while j < |ps|
      invariant i + 1 <= j <= |ps|
      invariant force[..] == RowPass(old(force[..]), ps, sqrt, cfg, i, j)
    {
      ghost var before := force[..];
      var pair := RepulsionStep(ps[i], ps[j], sqrt, cfg);
      if pair.Some? {
        var f := pair.value;
        force[i] := Plus(force[i], f);
        force[j] := Plus(force[j], Vec(-f.x, -f.y));
        assert force[..] == AddPair(before, i, j, f);
      }
      j := j + 1;
    }
  }
}
