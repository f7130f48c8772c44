/** The tunable parameters of the simulation, the two named presets they start
    from, and the quantities derived from them on every tick. */
module Configuration {

  /** Every field the controls can set. Sizes, forces and frictions are reals;
      nodeCount is the slider's whole number. */
  datatype Config = Config(
    centerMass: real,
    centerFriction: real,
    centerSize: real,
    nodeCount: nat,
    nodeSize: real,
    orbitRadius: real,
    attractionForce: real,
    repulsionForce: real,
    repulsionDistance: real,
    nodeFriction: real,
    connectionStiffness: real,
    showConnections: bool,
    showSprings: bool)

  datatype PresetName = Preset1 | Preset2

  /** The full snapshot each preset button restores. Both presets meet the hypotheses the force lemmas take: a positive node
      count, positive sizes and repulsion field, non-negative attraction and
      positive repulsion, and a touch distance strictly inside the combined
      repulsion radius. Both hide the custom lines and the springs. */
  function Preset(name: PresetName): (c: Config)
    ensures 0 < c.nodeCount
    ensures 0.0 < c.nodeSize && 0.0 < c.orbitRadius && 0.0 < c.repulsionDistance
    ensures 0.0 <= c.attractionForce && 0.0 < c.repulsionForce
    ensures NodeTouchDistance(c) < NodeRepulsionRadius(c) * 2.0
    ensures !c.showConnections && !c.showSprings
  {
    match name
    case Preset1 =>
      Config(
        centerMass := 19.0,
        centerFriction := 0.21,
        centerSize := 60.0,
        nodeCount := 36,
        nodeSize := 18.0,
        orbitRadius := 190.0,
        attractionForce := 0.000017,
        repulsionForce := 0.013201,
        repulsionDistance := 2.5,
        nodeFriction := 0.28,
        connectionStiffness := 0.0042,
        showConnections := false,
        showSprings := false)
    case Preset2 =>
      Config(
        centerMass := 20.0,
        centerFriction := 0.5,
        centerSize := 40.0,
        nodeCount := 69,
        nodeSize := 5.0,
        orbitRadius := 350.0,
        attractionForce := 0.000017,
        repulsionForce := 0.000007,
        repulsionDistance := 2.5,
        nodeFriction := 0.28,
        connectionStiffness := 0.0042,
        showConnections := false,
        showSprings := false)
  }

  // Derived values, recomputed from the configuration whenever they are read.

  /** The inner edge of the orbit band: inside the orbit. */
  function OrbitRadiusInner(cfg: Config): (r: real)
    ensures 0.0 <= cfg.orbitRadius ==> 0.0 <= r <= cfg.orbitRadius
  {
    cfg.orbitRadius * 0.9
  }

  /** The outer edge of the orbit band: outside the orbit. */
  function OrbitRadiusOuter(cfg: Config): (r: real)
    ensures 0.0 <= cfg.orbitRadius ==> cfg.orbitRadius <= r
  {
    cfg.orbitRadius * 1.1
  }

  /** The radius of one node's repulsion field. */
  function NodeRepulsionRadius(cfg: Config): (r: real)
    ensures 0.0 < cfg.nodeSize && 0.0 < cfg.repulsionDistance ==> 0.0 < r
  {
    cfg.nodeSize * cfg.repulsionDistance
  }

  /** Two nodes touch when their centres are closer than two node radii. */
  function NodeTouchDistance(cfg: Config): (r: real)
    ensures 0.0 < cfg.nodeSize ==> cfg.nodeSize < r
  {
    cfg.nodeSize * 2.0
  }

  /** The repulsion coefficient for touching nodes: never weaker than the
      normal one when that is non-negative, strictly stronger when positive. */
  function ForceStrong(cfg: Config): (r: real)
    ensures 0.0 <= cfg.repulsionForce ==> cfg.repulsionForce <= r
    ensures 0.0 < cfg.repulsionForce ==> cfg.repulsionForce < r
  {
    cfg.repulsionForce * 5.0
  }
}
