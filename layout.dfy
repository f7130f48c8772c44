/** The records that stand for the engine's bodies and constraints, and where
    the scene builder puts them: the centre body at the middle of the window,
    node i on the orbit circle at the fraction i / nodeCount of a full turn, and
    one link from the centre to each node. Cosine and sine are taken as
    parameters of the turn fraction: turnCos(t) stands for cos(2 * pi * t). */
module Layout {
  import opened Geometry
  import opened Configuration

  /** The centre body's mass is set from the configuration; the nodes keep the
      mass the engine derives from their size. */
  datatype Mass = EngineDefault | Fixed(value: real)

  /** Fill colour: the centre's fixed light grey, or the hue of a node's
      full-saturation, mid-lightness colour. */
  datatype Fill = LightGray | Hsl(hue: real)

  datatype Body = Body(
    pos: Vec,
    vel: Vec,
    radius: real,
    mass: Mass,
    frictionAir: real,
    restitution: real,
    fill: Fill)

  /** One end of a link: the centre body, or the node at an index of `nodes`. */
  datatype BodyRef = CenterRef | NodeRef(index: nat)

  datatype Link = Link(
    bodyA: BodyRef,
    bodyB: BodyRef,
    visible: bool,
    stiffness: real,
    damping: real,
    length: real)

  function Positions(bodies: seq<Body>): seq<Vec> {
    seq(|bodies|, k requires 0 <= k < |bodies| => bodies[k].pos)
  }

  /** The middle of a width x height window: as far from the left edge as from
      the right, and from the top as from the bottom. */
  function ScreenCentre(width: real, height: real): (c: Vec)
    ensures c.x == width - c.x && c.y == height - c.y
  {
    Vec(width / 2.0, height / 2.0)
  }

  /** The centre body of a freshly built scene: at rest at the window centre,
      with the configured size and mass. */
  function CenterBody(cfg: Config, width: real, height: real): (b: Body)
    ensures b.pos == ScreenCentre(width, height) && b.vel == Zero
    ensures b.radius == cfg.centerSize && b.mass == Fixed(cfg.centerMass)
  {
    Body(ScreenCentre(width, height), Zero, cfg.centerSize, Fixed(cfg.centerMass), cfg.centerFriction, 0.2, LightGray)
  }

  /** Node i's share of a full turn: i turns of 1 / count each, less than a
      whole turn for every node. */
  function TurnFraction(i: nat, count: nat): (t: real)
    requires count != 0
    ensures t * count as real == i as real
    ensures i < count ==> 0.0 <= t < 1.0
  {
    i as real / count as real
  }

  /** The point at a turn fraction on the circle of the given radius: exactly
      radius away from the centre whenever (turnCos, turnSin) of the fraction
      lies on the unit circle. */
  function OrbitPoint(centre: Vec, radius: real, fraction: real,
                      turnCos: real -> real, turnSin: real -> real): (p: Vec)
    ensures turnCos(fraction) * turnCos(fraction) + turnSin(fraction) * turnSin(fraction) == 1.0 ==>
              DistSq(p, centre) == radius * radius
  {
    var c, s := turnCos(fraction), turnSin(fraction);
    CircleRadius(radius, c, s);
    assert Minus(Vec(centre.x + radius * c, centre.y + radius * s), centre) == Vec(radius * c, radius * s);
    Vec(centre.x + radius * c, centre.y + radius * s)
  }

  lemma CircleRadius(r: real, c: real, s: real)
    ensures (r * c) * (r * c) + (r * s) * (r * s) == r * r * (c * c + s * s)
  {
  }

  /** Node i of a freshly built scene: at rest, with the configured size and the
      engine's own mass, coloured by a hue in [0, 360). */
  function OrbitNode(cfg: Config, i: nat, width: real, height: real,
                     turnCos: real -> real, turnSin: real -> real): (b: Body)
    requires i < cfg.nodeCount
    ensures b.vel == Zero && b.radius == cfg.nodeSize && b.mass == EngineDefault
    ensures b.fill.Hsl? && 0.0 <= b.fill.hue < 360.0
  {
    var fraction := TurnFraction(i, cfg.nodeCount);
    assert fraction * cfg.nodeCount as real == i as real;
    Body(OrbitPoint(ScreenCentre(width, height), cfg.orbitRadius, fraction, turnCos, turnSin),
         Zero, cfg.nodeSize, EngineDefault, cfg.nodeFriction, 0.3, Hsl(fraction * 360.0))
  }

  /** Node i put back at its orbit position around centre, at rest; every other
      field is kept. */
  function Relaid(b: Body, cfg: Config, i: nat, centre: Vec,
                  turnCos: real -> real, turnSin: real -> real): (r: Body)
    requires i < cfg.nodeCount
    ensures r == b.(pos := r.pos, vel := Zero)
    ensures forall width: real, height: real :: centre == ScreenCentre(width, height) ==>
              r.pos == OrbitNode(cfg, i, width, height, turnCos, turnSin).pos
  {
    b.(pos := OrbitPoint(centre, cfg.orbitRadius, TurnFraction(i, cfg.nodeCount), turnCos, turnSin), vel := Zero)
  }

  /** The link from the centre to node i of a freshly built scene; its rest
      length is the orbit radius. */
  function Spring(cfg: Config, i: nat): (l: Link)
    ensures l.bodyA == CenterRef && l.bodyB == NodeRef(i)
    ensures l.length == cfg.orbitRadius
  {
    Link(CenterRef, NodeRef(i), cfg.showSprings, cfg.connectionStiffness, 0.1, cfg.orbitRadius)
  }

  /** Link i joins the centre to node i, for every link: the links and the nodes
      are in one-to-one correspondence by index. */
  ghost predicate LinksMatchNodes(links: seq<Link>, count: nat) {
    |links| == count &&
    forall i :: 0 <= i < |links| ==> links[i].bodyA == CenterRef && links[i].bodyB == NodeRef(i)
  }

  /** Some link ends at node k. */
  ghost predicate Linked(links: seq<Link>, k: nat) {
    exists i :: 0 <= i < |links| && links[i].bodyB == NodeRef(k)
  }

  /** Matching links and nodes are a bijection: different links end at different
      nodes, and every node is the end of some link. */
  lemma LinksBijective(links: seq<Link>, count: nat)
    requires LinksMatchNodes(links, count)
    ensures forall i, j :: 0 <= i < j < |links| ==> links[i].bodyB != links[j].bodyB
    ensures forall k: nat :: k < count ==> Linked(links, k)
  {
    forall i, j | 0 <= i < j < |links|
      ensures links[i].bodyB != links[j].bodyB
    {
      assert links[i].bodyB.index == i && links[j].bodyB.index == j;
    }
    forall k: nat | k < count
      ensures Linked(links, k)
    {
      assert 0 <= k < |links| && links[k].bodyB == NodeRef(k);
    }
  }

  /** Wherever the cosine and sine of its fraction lie on the unit circle, node i
      is placed exactly orbitRadius from the window centre. */
  lemma OrbitPlacement(cfg: Config, i: nat, width: real, height: real,
                       turnCos: real -> real, turnSin: real -> real)
    requires i < cfg.nodeCount
    requires var t := TurnFraction(i, cfg.nodeCount); turnCos(t) * turnCos(t) + turnSin(t) * turnSin(t) == 1.0
    ensures DistSq(OrbitNode(cfg, i, width, height, turnCos, turnSin).pos, ScreenCentre(width, height))
            == cfg.orbitRadius * cfg.orbitRadius
  {
    var t := TurnFraction(i, cfg.nodeCount);
    var r := cfg.orbitRadius;
    var c, s := turnCos(t), turnSin(t);
    var d := Minus(OrbitNode(cfg, i, width, height, turnCos, turnSin).pos, ScreenCentre(width, height));
    assert d == Vec(r * c, r * s);
    calc {
      (r * c) * (r * c) + (r * s) * (r * s);
      r * r * (c * c + s * s);
      r * r;
    }
  }

  /** Nodes are evenly spaced: node i + 1 sits 1 / nodeCount of a turn further
      round the orbit than node i, and its hue is 360 / nodeCount higher. */
  lemma EvenSpacing(cfg: Config, i: nat, width: real, height: real,
                    turnCos: real -> real, turnSin: real -> real)
    requires i + 1 < cfg.nodeCount
    ensures var n := cfg.nodeCount as real;
            OrbitNode(cfg, i + 1, width, height, turnCos, turnSin).pos ==
              OrbitPoint(ScreenCentre(width, height), cfg.orbitRadius,
                         TurnFraction(i, cfg.nodeCount) + 1.0 / n, turnCos, turnSin)
    ensures OrbitNode(cfg, i + 1, width, height, turnCos, turnSin).fill.hue
              - OrbitNode(cfg, i, width, height, turnCos, turnSin).fill.hue == 360.0 / cfg.nodeCount as real
  {
    var n := cfg.nodeCount as real;
    assert TurnFraction(i + 1, cfg.nodeCount) == TurnFraction(i, cfg.nodeCount) + 1.0 / n;
    calc {
      TurnFraction(i + 1, cfg.nodeCount) * 360.0 - TurnFraction(i, cfg.nodeCount) * 360.0;
      (TurnFraction(i + 1, cfg.nodeCount) - TurnFraction(i, cfg.nodeCount)) * 360.0;
      (1.0 / n) * 360.0;
      360.0 / n;
    }
  }
}
