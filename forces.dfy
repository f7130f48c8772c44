/** The per-tick force field: centre attraction with an orbit-band multiplier and
    short-range pairwise repulsion with a stronger coefficient once two nodes
    touch. The rules for one node or one pair are plain functions; the two
    passes of the tick handler are specified by the functions AttractionPass
    and RepulsionPass over a sequence of accumulated forces indexed like the
    nodes. */
module Forces {
  import opened Geometry
  import opened Configuration

  // ---------------------------------------------------------------------------
  // Centre attraction

  /** Multiplier chosen by comparing the node's distance from the centre with
      the band [0.9, 1.1] x orbitRadius. */
  function AttractionMultiplier(distance: real, cfg: Config): (m: real)
    ensures m == cfg.attractionForce * 1.5 || m == cfg.attractionForce * 0.5 || m == cfg.attractionForce
    ensures 0.0 <= cfg.attractionForce ==> cfg.attractionForce * 0.5 <= m <= cfg.attractionForce * 1.5
  {
    if distance > OrbitRadiusOuter(cfg) then cfg.attractionForce * 1.5
    else if distance < OrbitRadiusInner(cfg) then cfg.attractionForce * 0.5
    else cfg.attractionForce
  }

  /** Force on a node at pos: the vector from the node to the centre, scaled by
      the multiplier for its distance. It lies on the line through the node and
      the centre, and vanishes when the node sits on the centre. */
  function Attraction(centre: Vec, pos: Vec, distance: real, cfg: Config): (f: Vec)
    ensures f.x * (centre.y - pos.y) == f.y * (centre.x - pos.x)
    ensures pos == centre ==> f == Zero
  {
    var d := Minus(centre, pos);
    var m := AttractionMultiplier(distance, cfg);
    assert (d.x * m) * d.y == (d.y * m) * d.x;
    Scale(d, m)
  }

  /** The band test may be made on squared distances: with a non-negative orbit
      radius, the multiplier is 1.5x beyond the outer edge, 0.5x inside the
      inner edge, and the base value on the band including both edges. */
  lemma MultiplierBySquares(distance: real, distSq: real, cfg: Config)
    requires IsRoot(distance, distSq)
    requires 0.0 <= cfg.orbitRadius
    ensures distSq > OrbitRadiusOuter(cfg) * OrbitRadiusOuter(cfg) ==>
              AttractionMultiplier(distance, cfg) == cfg.attractionForce * 1.5
    ensures distSq < OrbitRadiusInner(cfg) * OrbitRadiusInner(cfg) ==>
              AttractionMultiplier(distance, cfg) == cfg.attractionForce * 0.5
    ensures OrbitRadiusInner(cfg) * OrbitRadiusInner(cfg) <= distSq <= OrbitRadiusOuter(cfg) * OrbitRadiusOuter(cfg) ==>
              AttractionMultiplier(distance, cfg) == cfg.attractionForce
  {
    SquareLess(OrbitRadiusOuter(cfg), distance);
    SquareLess(distance, OrbitRadiusInner(cfg));
  }

  /** The projection of the attraction on the node-to-centre vector is the
      multiplier times the squared distance; so with a non-negative attraction
      force the attraction never points away from the centre. */
  lemma AttractionTowardCentre(centre: Vec, pos: Vec, distance: real, cfg: Config)
    ensures Dot(Attraction(centre, pos, distance, cfg), Minus(centre, pos))
            == AttractionMultiplier(distance, cfg) * DistSq(centre, pos)
    ensures 0.0 <= cfg.attractionForce ==> 0.0 <= Dot(Attraction(centre, pos, distance, cfg), Minus(centre, pos))
  {
    var d := Minus(centre, pos);
    var m := AttractionMultiplier(distance, cfg);
    assert Dot(Scale(d, m), d) == m * (d.x * d.x + d.y * d.y);
    DistSqNonNegative(centre, pos);
    if 0.0 <= cfg.attractionForce {
      assert 0.0 <= m;
    }
  }

  // ---------------------------------------------------------------------------
  // Pairwise repulsion

  /** Twice the per-node repulsion radius: the distance below which a pair
      repels. Positive for a positive node size and field; for a positive node
      size the touch distance lies strictly inside it exactly when the field
      reaches beyond the node itself (repulsionDistance > 1). */
  function CombinedRadius(cfg: Config): (r: real)
    ensures 0.0 < cfg.nodeSize && 0.0 < cfg.repulsionDistance ==> 0.0 < r
    ensures 0.0 < cfg.nodeSize ==> (NodeTouchDistance(cfg) < r <==> 1.0 < cfg.repulsionDistance)
  {
    FieldBeyondTouch(cfg.nodeSize, cfg.repulsionDistance);
    assert NodeTouchDistance(cfg) == cfg.nodeSize * 2.0;
    assert NodeRepulsionRadius(cfg) * 2.0 == cfg.nodeSize * cfg.repulsionDistance * 2.0;
    NodeRepulsionRadius(cfg) * 2.0
  }

  /** 2n < 2 n d exactly when 1 < d, for a positive n. */
  lemma FieldBeyondTouch(n: real, d: real)
    ensures 0.0 < n ==> (n * 2.0 < n * d * 2.0 <==> 1.0 < d)
  {
    if 0.0 < n {
      assert n * d * 2.0 - n * 2.0 == (2.0 * n) * (d - 1.0);
      ProductSign(2.0 * n, d - 1.0);
    }
  }

  /** A product with a positive factor has the sign of the other factor. */
  lemma ProductSign(a: real, b: real)
    requires 0.0 < a
    ensures 0.0 < a * b <==> 0.0 < b
  {
    if 0.0 < b {
      SquareStrict(0.0, 1.0);
      assert 0.0 < a * b;
    } else {
      assert a * b <= 0.0;
    }
  }

  /** The early-out test of the repulsion loop, on squared distances. A field
      of radius zero admits no pair. */
  predicate InRepulsionRange(pa: Vec, pb: Vec, cfg: Config)
    ensures CombinedRadius(cfg) == 0.0 ==> !InRepulsionRange(pa, pb, cfg)
  {
    DistSqNonNegative(pa, pb);
    DistSq(pa, pb) < CombinedRadius(cfg) * CombinedRadius(cfg)
  }

  /** The early-out does not depend on the order of the pair. */
  lemma RangeSymmetric(pa: Vec, pb: Vec, cfg: Config)
    ensures InRepulsionRange(pa, pb, cfg) <==> InRepulsionRange(pb, pa, cfg)
  {
    assert DistSq(pb, pa) == DistSq(pa, pb);
  }

  /** Whether the pair is closer than the touch distance may be decided on
      squared distances. */
  lemma TouchBySquares(distance: real, distSq: real, cfg: Config)
    requires IsRoot(distance, distSq) && 0.0 <= cfg.nodeSize
    ensures distance < NodeTouchDistance(cfg) <==> distSq < NodeTouchDistance(cfg) * NodeTouchDistance(cfg)
  {
    SquareLess(distance, NodeTouchDistance(cfg));
  }

  /** How deep a pair at this distance sits inside the combined radius: 1 at
      distance zero, positive exactly when the pair is strictly inside. */
  function Penetration(distance: real, cfg: Config): (p: real)
    requires CombinedRadius(cfg) != 0.0
    ensures distance == 0.0 ==> p == 1.0
    ensures 0.0 < CombinedRadius(cfg) ==> (0.0 < p <==> distance < CombinedRadius(cfg))
  {
    PenetrationSign(distance, CombinedRadius(cfg));
    1.0 - distance / CombinedRadius(cfg)
  }

  /** Squared penetration times 5 x repulsionForce when the pair is closer than
      the touch distance, times repulsionForce otherwise. */
  function RepulsionMagnitude(distance: real, cfg: Config): (m: real)
    requires CombinedRadius(cfg) != 0.0
    ensures 0.0 <= cfg.repulsionForce ==> 0.0 <= m
    ensures distance == CombinedRadius(cfg) ==> m == 0.0
  {
    var penetration := Penetration(distance, cfg);
    var penetrationSq := penetration * penetration;
    if distance < NodeTouchDistance(cfg) then ForceStrong(cfg) * penetrationSq
    else cfg.repulsionForce * penetrationSq
  }

  /** Force on the first node of a pair (the second receives its negation), or
      None when the pair is out of range. A pair at distance zero is skipped as
      well: the normalisation would divide by zero. */
  function PairForce(pa: Vec, pb: Vec, distance: real, cfg: Config): (r: Option<Vec>)
    ensures r.Some? <==> InRepulsionRange(pa, pb, cfg) && distance != 0.0
    ensures r.Some? ==> r.value.x * (pa.y - pb.y) == r.value.y * (pa.x - pb.x)
  {
    if !InRepulsionRange(pa, pb, cfg) then None
    else if distance == 0.0 then None
    else
      DistSqNonNegative(pa, pb);
      var magnitude := RepulsionMagnitude(distance, cfg);
      var invDist := 1.0 / distance;
      var d := Minus(pa, pb);
      assert ((d.x * invDist) * magnitude) * d.y == ((d.y * invDist) * magnitude) * d.x;
      Some(Scale(Scale(d, invDist), magnitude))
  }

  /** 1 - d / c is positive exactly when d < c, for a positive c. */
  lemma PenetrationSign(d: real, c: real)
    requires c != 0.0
    ensures 0.0 < c ==> (0.0 < 1.0 - d / c <==> d < c)
  {
    if 0.0 < c {
      var q := d / c;
      assert q * c == d;
      if d < c {
        assert q < 1.0;
      }
      if q < 1.0 {
        assert q * c < c;
      }
    }
  }

  /** A pair gets a force exactly when its squared distance is positive and
      below the squared combined radius. */
  lemma RepulsionEarlyOut(pa: Vec, pb: Vec, distance: real, cfg: Config)
    requires IsRoot(distance, DistSq(pa, pb))
    ensures PairForce(pa, pb, distance, cfg).Some? <==>
              0.0 < DistSq(pa, pb) < CombinedRadius(cfg) * CombinedRadius(cfg)
  {
    RootZero(distance, DistSq(pa, pb));
    DistSqNonNegative(pa, pb);
  }

  /** For a pair in range (and positive sizes) the penetration lies in (0, 1]. */
  lemma PenetrationRange(pa: Vec, pb: Vec, distance: real, cfg: Config)
    requires IsRoot(distance, DistSq(pa, pb))
    requires 0.0 < CombinedRadius(cfg)
    requires InRepulsionRange(pa, pb, cfg)
    ensures 0.0 < Penetration(distance, cfg) <= 1.0
  {
    var c := CombinedRadius(cfg);
    SquareLess(distance, c);
    var q := distance / c;
    assert q * c == distance;
  }

  /** The magnitude is the normal coefficient times the squared penetration,
      multiplied by five exactly below the touch distance. With a non-negative
      repulsion force it is never negative; with a positive one and a non-zero
      penetration the normal magnitude is positive, so the touching branch
      gives strictly more. */
  lemma TouchEscalation(distance: real, cfg: Config)
    requires CombinedRadius(cfg) != 0.0
    ensures var pSq := Penetration(distance, cfg) * Penetration(distance, cfg);
            var normal := cfg.repulsionForce * pSq;
            RepulsionMagnitude(distance, cfg) == (if distance < NodeTouchDistance(cfg) then 5.0 * normal else normal) &&
            (0.0 <= cfg.repulsionForce ==> 0.0 <= normal) &&
            (0.0 < cfg.repulsionForce && Penetration(distance, cfg) != 0.0 ==> 0.0 < normal)
    ensures distance < NodeTouchDistance(cfg) && 0.0 < cfg.repulsionForce && Penetration(distance, cfg) != 0.0 ==>
              RepulsionMagnitude(distance, cfg) > cfg.repulsionForce * (Penetration(distance, cfg) * Penetration(distance, cfg))
  {
    var p := Penetration(distance, cfg);
    var pSq := p * p;
    var normal := cfg.repulsionForce * pSq;
    assert ForceStrong(cfg) * pSq == 5.0 * normal;
    assert 0.0 <= pSq;
    if p != 0.0 {
      SquarePositive(p);
      if 0.0 < cfg.repulsionForce {
        assert 0.0 < normal;
        assert 5.0 * normal > normal;
      }
    }
  }

  /** The force on the first node has length equal to the magnitude and points
      from the second node to the first: its projection on pa - pb is
      distance x magnitude, so it pushes the pair apart whenever the magnitude
      is non-negative. */
  lemma RepulsionSeparates(pa: Vec, pb: Vec, distance: real, cfg: Config)
    requires IsRoot(distance, DistSq(pa, pb))
    requires PairForce(pa, pb, distance, cfg).Some?
    ensures var f := PairForce(pa, pb, distance, cfg).value;
            var magnitude := RepulsionMagnitude(distance, cfg);
            Dot(f, Minus(pa, pb)) == distance * magnitude &&
            Dot(f, f) == magnitude * magnitude
  {
    var delta := Minus(pa, pb);
    var magnitude := RepulsionMagnitude(distance, cfg);
    var k := 1.0 / distance * magnitude;
    assert distance != 0.0 && InRepulsionRange(pa, pb, cfg);
    assert PairForce(pa, pb, distance, cfg).value == Scale(Scale(delta, 1.0 / distance), magnitude);
    ScaleScale(delta, 1.0 / distance, magnitude);
    DotScale(delta, k);
    InvScale(distance, magnitude);
    assert k * distance == magnitude;
    Unscale(k, distance, magnitude);
  }

  lemma InvScale(d: real, m: real)
    requires d != 0.0
    ensures (1.0 / d * m) * d == m
  {
    var inv := 1.0 / d;
    assert inv * d == 1.0;
    calc {
      (inv * m) * d;
      (inv * d) * m;
      m;
    }
  }

  /** If k scales d to m, then it scales d^2 to d * m and k^2 scales d^2 to m^2. */
  lemma Unscale(k: real, d: real, m: real)
    requires k * d == m
    ensures k * (d * d) == d * m
    ensures k * k * (d * d) == m * m
  {
    calc {
      k * (d * d);
      (k * d) * d;
      d * m;
    }
    calc {
      k * k * (d * d);
      (k * d) * (k * d);
      m * m;
    }
  }

  // ---------------------------------------------------------------------------
  // The two passes of one tick, over a sequence of accumulated forces

  /** The tick's attraction pass: every node receives exactly one attraction
      force, computed from the distance that sqrt returns for its squared
      distance from the centre. */
  function AttractionPass(f: seq<Vec>, centre: Vec, ps: seq<Vec>, sqrt: real -> real, cfg: Config): (r: seq<Vec>)
    requires |f| == |ps|
    ensures |r| == |f|
    ensures forall k :: 0 <= k < |f| && ps[k] == centre ==> r[k] == f[k]
  {
    var r := seq(|f|, k requires 0 <= k < |f| =>
      Plus(f[k], Attraction(centre, ps[k], sqrt(DistSq(centre, ps[k])), cfg)));
    assert forall k :: 0 <= k < |f| ==> r[k] == Plus(f[k], Attraction(centre, ps[k], sqrt(DistSq(centre, ps[k])), cfg));
    r
  }

  /** The pair (i, j) of node positions, at the distance sqrt gives. */
  function PairAt(ps: seq<Vec>, sqrt: real -> real, cfg: Config, i: nat, j: nat): Option<Vec>
    requires i < |ps| && j < |ps|
  {
    PairForce(ps[i], ps[j], sqrt(DistSq(ps[i], ps[j])), cfg)
  }

  /** The force a pair puts on its first node, zero when it puts none. */
  function Contribution(ps: seq<Vec>, sqrt: real -> real, cfg: Config, i: nat, j: nat): Vec
    requires i < |ps| && j < |ps|
  {
    match PairAt(ps, sqrt, cfg, i, j)
    case None => Zero
    case Some(force) => force
  }

  /** +force on node i, -force on node j. */
  function AddPair(f: seq<Vec>, i: nat, j: nat, force: Vec): (r: seq<Vec>)
    requires i < |f| && j < |f|
    ensures |r| == |f|
  {
    f[i := Plus(f[i], force)][j := Minus(f[j], force)]
  }

  /** The pair's force, if any, applied equal and opposite; nothing otherwise. */
  function ApplyPair(f: seq<Vec>, i: nat, j: nat, force: Option<Vec>): (r: seq<Vec>)
    requires i < |f| && j < |f|
    ensures |r| == |f|
  {
    match force
    case None => f
    case Some(v) => AddPair(f, i, j, v)
  }

  /** Row i of the repulsion loop after its inner index reached j: the pairs
      (i, i+1), ..., (i, j-1) applied in that order. */
  function RowPass(f: seq<Vec>, ps: seq<Vec>, sqrt: real -> real, cfg: Config, i: nat, j: nat): (r: seq<Vec>)
    requires |f| == |ps| && i < j <= |ps|
    ensures |r| == |f|
    ensures forall k :: 0 <= k < |f| && k != i && !(i < k < j) ==> r[k] == f[k]
    decreases j
  {
    if j == i + 1 then f
    else ApplyPair(RowPass(f, ps, sqrt, cfg, i, j - 1), i, j - 1, PairAt(ps, sqrt, cfg, i, j - 1))
  }

  /** The repulsion loop after its outer index reached i: rows 0 .. i-1 done. */
  function RepulsionPass(f: seq<Vec>, ps: seq<Vec>, sqrt: real -> real, cfg: Config, i: nat): (r: seq<Vec>)
    requires |f| == |ps| && i <= |ps|
    ensures |r| == |f|
  {
    if i == 0 then f
    else RowPass(RepulsionPass(f, ps, sqrt, cfg, i - 1), ps, sqrt, cfg, i - 1, |ps|)
  }

  /** One whole tick of the handler: attraction on every node, then repulsion
      on every unordered pair. */
  function TickForces(f: seq<Vec>, centre: Vec, ps: seq<Vec>, sqrt: real -> real, cfg: Config): (r: seq<Vec>)
    requires |f| == |ps|
    ensures |r| == |f|
  {
    RepulsionPass(AttractionPass(f, centre, ps, sqrt, cfg), ps, sqrt, cfg, |ps|)
  }

  // ---------------------------------------------------------------------------
  // Newton's third law: repulsion adds nothing to the total force

  /**
   * Applying a pair changes its two nodes by equal and opposite amounts,
   * touches no other node and leaves the sum unchanged.
   */
  lemma AddPairTotal(f: seq<Vec>, i: nat, j: nat, force: Vec)
    requires i < |f| && j < |f| && i != j
    ensures Plus(Minus(AddPair(f, i, j, force)[i], f[i]), Minus(AddPair(f, i, j, force)[j], f[j])) == Zero
    ensures forall k :: 0 <= k < |f| && k != i && k != j ==> AddPair(f, i, j, force)[k] == f[k]
    ensures Total(AddPair(f, i, j, force)) == Total(f)
  {
    var g := f[i := Plus(f[i], force)];
    TotalUpdate(f, i, Plus(f[i], force));
    TotalUpdate(g, j, Minus(f[j], force));
  }

  lemma {:induction false} RowPassTotal(f: seq<Vec>, ps: seq<Vec>, sqrt: real -> real, cfg: Config, i: nat, j: nat)
    requires |f| == |ps| && i < j <= |ps|
    ensures Total(RowPass(f, ps, sqrt, cfg, i, j)) == Total(f)
    decreases j
  {
    if j > i + 1 {
      RowPassTotal(f, ps, sqrt, cfg, i, j - 1);
      var o := PairAt(ps, sqrt, cfg, i, j - 1);
      if o.Some? {
        AddPairTotal(RowPass(f, ps, sqrt, cfg, i, j - 1), i, j - 1, o.value);
      }
    }
  }

  lemma {:induction false} RepulsionPassTotal(f: seq<Vec>, ps: seq<Vec>, sqrt: real -> real, cfg: Config, i: nat)
    requires |f| == |ps| && i <= |ps|
    ensures Total(RepulsionPass(f, ps, sqrt, cfg, i)) == Total(f)
  {
    if i > 0 {
      RepulsionPassTotal(f, ps, sqrt, cfg, i - 1);
      RowPassTotal(RepulsionPass(f, ps, sqrt, cfg, i - 1), ps, sqrt, cfg, i - 1, |ps|);
    }
  }

  /** The repulsion forces of a tick sum to zero: the total force after the tick
      is the total after the attraction pass alone. */
  lemma RepulsionSumsToZero(f: seq<Vec>, centre: Vec, ps: seq<Vec>, sqrt: real -> real, cfg: Config)
    requires |f| == |ps|
    ensures Total(TickForces(f, centre, ps, sqrt, cfg)) == Total(AttractionPass(f, centre, ps, sqrt, cfg))
  {
    RepulsionPassTotal(AttractionPass(f, centre, ps, sqrt, cfg), ps, sqrt, cfg, |ps|);
  }

  // ---------------------------------------------------------------------------
  // Every unordered pair is visited exactly once

  /** Sum of the forces node k receives as the first node of pairs (k, k+1) ..
      (k, j-1). */
  function Outgoing(ps: seq<Vec>, sqrt: real -> real, cfg: Config, k: nat, j: nat): Vec
    requires k < |ps| && j <= |ps|
    decreases j
  {
    if j <= k + 1 then Zero
    else Plus(Outgoing(ps, sqrt, cfg, k, j - 1), Contribution(ps, sqrt, cfg, k, j - 1))
  }

  /** Sum of the forces whose negation node k receives as the second node of
      pairs (m, k) with m < i and m < k. */
  function Incoming(ps: seq<Vec>, sqrt: real -> real, cfg: Config, i: nat, k: nat): Vec
    requires i <= |ps| && k < |ps|
  {
    if i == 0 then Zero
    else if i - 1 < k then Plus(Incoming(ps, sqrt, cfg, i - 1, k), Contribution(ps, sqrt, cfg, i - 1, k))
    else Incoming(ps, sqrt, cfg, i - 1, k)
  }

  lemma RowPassAt(f: seq<Vec>, ps: seq<Vec>, sqrt: real -> real, cfg: Config, i: nat, j: nat, k: nat)
    requires |f| == |ps| && i < j <= |ps| && k < |ps|
    ensures RowPass(f, ps, sqrt, cfg, i, j)[k] ==
              if k == i then Plus(f[k], Outgoing(ps, sqrt, cfg, i, j))
              else if i < k < j then Minus(f[k], Contribution(ps, sqrt, cfg, i, k))
              else f[k]
  {
    if k == i {
      RowPassOwn(f, ps, sqrt, cfg, i, j);
    } else if i < k < j {
      RowPassPartner(f, ps, sqrt, cfg, i, j, k);
    }
  }

  /** Node i, the first node of every pair in its row, has received the sum of
      the row's forces so far. */
  lemma {:induction false} RowPassOwn(f: seq<Vec>, ps: seq<Vec>, sqrt: real -> real, cfg: Config, i: nat, j: nat)
    requires |f| == |ps| && i < j <= |ps|
    ensures RowPass(f, ps, sqrt, cfg, i, j)[i] == Plus(f[i], Outgoing(ps, sqrt, cfg, i, j))
    decreases j
  {
    if j > i + 1 {
      var prev := RowPass(f, ps, sqrt, cfg, i, j - 1);
      var o := PairAt(ps, sqrt, cfg, i, j - 1);
      var c := Contribution(ps, sqrt, cfg, i, j - 1);
      RowPassOwn(f, ps, sqrt, cfg, i, j - 1);
      ApplyPairAt(prev, i, j - 1, o, c, i);
      assert Outgoing(ps, sqrt, cfg, i, j) == Plus(Outgoing(ps, sqrt, cfg, i, j - 1), c);
    }
  }

  /** Node k, the second node of the pair (i, k), has received the negation of
      that pair's force once its pair is done. */
  lemma {:induction false} RowPassPartner(f: seq<Vec>, ps: seq<Vec>, sqrt: real -> real, cfg: Config, i: nat, j: nat, k: nat)
    requires |f| == |ps| && i < k < j <= |ps|
    ensures RowPass(f, ps, sqrt, cfg, i, j)[k] == Minus(f[k], Contribution(ps, sqrt, cfg, i, k))
    decreases j
  {
    var prev := RowPass(f, ps, sqrt, cfg, i, j - 1);
    var o := PairAt(ps, sqrt, cfg, i, j - 1);
    var c := Contribution(ps, sqrt, cfg, i, j - 1);
    ApplyPairAt(prev, i, j - 1, o, c, k);
    if k < j - 1 {
      RowPassPartner(f, ps, sqrt, cfg, i, j - 1, k);
    }
  }

  /** Entry k after a pair (i, j) is applied, with v the pair's force or zero. */
  lemma ApplyPairAt(g: seq<Vec>, i: nat, j: nat, o: Option<Vec>, v: Vec, k: nat)
    requires i < j < |g| && k < |g|
    requires v == (if o.Some? then o.value else Zero)
    ensures ApplyPair(g, i, j, o)[k] ==
              if k == i then Plus(g[k], v) else if k == j then Minus(g[k], v) else g[k]
  {
  }

  lemma {:induction false} RepulsionPassAt(f: seq<Vec>, ps: seq<Vec>, sqrt: real -> real, cfg: Config, i: nat, k: nat)
    requires |f| == |ps| && i <= |ps| && k < |ps|
    ensures RepulsionPass(f, ps, sqrt, cfg, i)[k] ==
              Minus(Plus(f[k], if k < i then Outgoing(ps, sqrt, cfg, k, |ps|) else Zero), Incoming(ps, sqrt, cfg, i, k))
  {
    if i > 0 {
      var r := RepulsionPass(f, ps, sqrt, cfg, i - 1);
      RepulsionPassAt(f, ps, sqrt, cfg, i - 1, k);
      RowPassAt(r, ps, sqrt, cfg, i - 1, |ps|, k);
      var before := Incoming(ps, sqrt, cfg, i - 1, k);
      if k == i - 1 {
        assert r[k] == Minus(Plus(f[k], Zero), before);
        assert Incoming(ps, sqrt, cfg, i, k) == before;
      } else if k > i - 1 {
        assert r[k] == Minus(Plus(f[k], Zero), before);
        assert Incoming(ps, sqrt, cfg, i, k) == Plus(before, Contribution(ps, sqrt, cfg, i - 1, k));
      } else {
        assert r[k] == Minus(Plus(f[k], Outgoing(ps, sqrt, cfg, k, |ps|)), before);
        assert Incoming(ps, sqrt, cfg, i, k) == before;
      }
    }
  }

  /** After the repulsion pass, node k has received +F(k, j) for every j > k and
      -F(m, k) for every m < k, and nothing else: each unordered pair once. */
  lemma RepulsionOnNode(f: seq<Vec>, ps: seq<Vec>, sqrt: real -> real, cfg: Config, k: nat)
    requires |f| == |ps| && k < |ps|
    ensures RepulsionPass(f, ps, sqrt, cfg, |ps|)[k] ==
              Minus(Plus(f[k], Outgoing(ps, sqrt, cfg, k, |ps|)), Incoming(ps, sqrt, cfg, |ps|, k))
  {
    RepulsionPassAt(f, ps, sqrt, cfg, |ps|, k);
  }
}
